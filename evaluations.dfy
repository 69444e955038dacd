/** Evaluation of completed tasks (`EvaluationService`). */
module Evaluations {
  import opened Wrappers
  import opened Domain
  import opened Seqs
  import opened Sorting
  import opened Store

  /** `EvaluationCreateSchema`. */
  datatype EvaluationCreate = EvaluationCreate(score: int, comment: Option<string>)

  /** The payload constraints: score 1..5, comment at most 1000 characters. */
  predicate ValidEvaluationCreate(e: EvaluationCreate) {
    1 <= e.score <= 5 && (e.comment.None? || |e.comment.value| <= 1000)
  }

  datatype EvaluationError =
    | TaskNotCompleted      // TaskNotCompletedError
    | DuplicateEstimate     // DuplicateEstimateError
    | MultipleResultsFound  // scalar_one_or_none on two or more rows
    | IntegrityError        // NOT NULL on user_id, or the score check constraint

  /** The rows of `select(Evaluation).where(task_id == .., evaluator_id == ..)`. */
  function EvaluationsBy(evals: seq<Evaluation>, taskId: int, evaluatorId: int): seq<Evaluation> {
    Filter(evals, (e: Evaluation) => e.taskId == taskId && e.evaluatorId == evaluatorId)
  }

  /** What `create_evaluation` raises, in the order its checks run. */
  function CreateFailure(evals: seq<Evaluation>, input: EvaluationCreate, evaluator: User, task: Task): Option<EvaluationError> {
    var existing := |EvaluationsBy(evals, task.id, evaluator.id)|;
    if task.status != Completed then Some(TaskNotCompleted)
    else if existing >= 2 then Some(MultipleResultsFound)
    else if existing == 1 then Some(DuplicateEstimate)
    else if task.assigneeId.None? || !(1 <= input.score <= 5) then Some(IntegrityError)
    else None
  }

  /** The row `create_evaluation` inserts: the score goes to the task's assignee. */
  function NewEvaluation(id: int, input: EvaluationCreate, evaluator: User, task: Task): (r: Evaluation)
    requires task.assigneeId.Some?
    ensures r.id == id && r.evaluatorId == evaluator.id && r.taskId == task.id && r.userId == task.assigneeId.value
    ensures r.score == input.score && r.comment == input.comment
  {
    Evaluation(id, input.score, input.comment, task.id, evaluator.id, task.assigneeId.value)
  }

  /** No evaluator has evaluated one task twice. */
  predicate OnePerEvaluator(evals: seq<Evaluation>) {
    forall i, j :: 0 <= i < j < |evals| ==> !(evals[i].taskId == evals[j].taskId && evals[i].evaluatorId == evals[j].evaluatorId)
  }

  lemma {:induction false} OnePerEvaluatorAtMostOne(evals: seq<Evaluation>, taskId: int, evaluatorId: int)
    requires OnePerEvaluator(evals)
    ensures |EvaluationsBy(evals, taskId, evaluatorId)| <= 1
  {
    if evals != [] {
      var t := evals[1..];
      assert OnePerEvaluator(t) by {
        forall i, j | 0 <= i < j < |t| ensures !(t[i].taskId == t[j].taskId && t[i].evaluatorId == t[j].evaluatorId) {
          assert t[i] == evals[i + 1] && t[j] == evals[j + 1];
        }
      }
      OnePerEvaluatorAtMostOne(t, taskId, evaluatorId);
      if evals[0].taskId == taskId && evals[0].evaluatorId == evaluatorId {
        forall j | 0 <= j < |t| ensures !(t[j].taskId == taskId && t[j].evaluatorId == evaluatorId) {
          assert t[j] == evals[j + 1];
        }
        FilterNone(t, (e: Evaluation) => e.taskId == taskId && e.evaluatorId == evaluatorId);
      }
    }
  }

  /** The store keeps one evaluation per evaluator and task, so two matching rows never occur. */
  lemma NoMultipleResults(evals: seq<Evaluation>, input: EvaluationCreate, evaluator: User, task: Task)
    requires OnePerEvaluator(evals)
    ensures CreateFailure(evals, input, evaluator, task) != Some(MultipleResultsFound)
  {
    OnePerEvaluatorAtMostOne(evals, task.id, evaluator.id);
  }

  /** A successful create keeps that invariant. */
  lemma CreateKeepsOnePerEvaluator(evals: seq<Evaluation>, id: int, input: EvaluationCreate, evaluator: User, task: Task)
    requires OnePerEvaluator(evals) && CreateFailure(evals, input, evaluator, task).None?
    ensures OnePerEvaluator(evals + [NewEvaluation(id, input, evaluator, task)])
  {
    var e := NewEvaluation(id, input, evaluator, task);
    var s := evals + [e];
    forall i, j | 0 <= i < j < |s| ensures !(s[i].taskId == s[j].taskId && s[i].evaluatorId == s[j].evaluatorId) {
      if j == |evals| {
        assert s[i] == evals[i];
      }
    }
  }

  /** A second identical create by the same evaluator fails as a duplicate. */
  lemma SecondCreateFails(evals: seq<Evaluation>, id: int, input: EvaluationCreate, evaluator: User, task: Task, again: EvaluationCreate)
    requires CreateFailure(evals, input, evaluator, task).None?
    ensures CreateFailure(evals + [NewEvaluation(id, input, evaluator, task)], again, evaluator, task) == Some(DuplicateEstimate)
  {
    var e := NewEvaluation(id, input, evaluator, task);
    FilterConcat(evals, [e], (x: Evaluation) => x.taskId == task.id && x.evaluatorId == evaluator.id);
  }

  /** With a valid payload, a completed and assigned task, and no earlier evaluation, the create succeeds. */
  lemma ValidCreateSucceeds(evals: seq<Evaluation>, input: EvaluationCreate, evaluator: User, task: Task)
    requires ValidEvaluationCreate(input) && task.status == Completed && task.assigneeId.Some?
    requires EvaluationsBy(evals, task.id, evaluator.id) == []
    ensures CreateFailure(evals, input, evaluator, task).None?
  {
  }

  function EvaluationId(e: Evaluation): int {
    e.id
  }

  /** `get_evaluations`: the user's evaluations ordered by id. */
  function GetEvaluations(evals: seq<Evaluation>, userId: int): seq<Evaluation> {
    SortBy(Filter(evals, (e: Evaluation) => e.userId == userId), EvaluationId)
  }

  /**
   * The listing holds exactly the evaluations of the user, each as often as
   * stored, in ascending id order.
   */
  lemma GetEvaluationsFacts(evals: seq<Evaluation>, userId: int, e: Evaluation)
    ensures var r := GetEvaluations(evals, userId);
      && SortedBy(r, EvaluationId)
      && multiset(r)[e] == (if e.userId == userId then multiset(evals)[e] else 0)
      && (e in r <==> e in evals && e.userId == userId)
  {
    var p := (x: Evaluation) => x.userId == userId;
    SortByFacts(Filter(evals, p), EvaluationId);
    FilterMultiset(evals, p, e);
  }

  class EvaluationService {
    const session: Session

    constructor (session: Session)
      ensures this.session == session
    {
      this.session := session;
    }

    /** `create_evaluation`: the completed-task and duplicate checks, then the insert. */
    method CreateEvaluation(input: EvaluationCreate, currentUser: User, task: Task) returns (r: Result<Evaluation, EvaluationError>)
      requires session.Valid()
      modifies session`evaluations, session`evaluationSeq
      ensures session.Valid()
      ensures var f := CreateFailure(old(session.evaluations), input, currentUser, task);
        && (f.Some? ==> r == Err(f.value) && session.evaluations == old(session.evaluations)
                        && session.evaluationSeq == old(session.evaluationSeq))
        && (f.None? ==> task.assigneeId.Some? && r == Ok(NewEvaluation(old(session.evaluationSeq) + 1, input, currentUser, task))
                        && session.evaluations == old(session.evaluations) + [r.value]
                        && session.evaluationSeq == old(session.evaluationSeq) + 1)
    {
      if task.status != Completed {
        return Err(TaskNotCompleted);
      }
      var existing := EvaluationsBy(session.evaluations, task.id, currentUser.id);
      if |existing| >= 2 {
        return Err(MultipleResultsFound);
      }
      if |existing| == 1 {
        return Err(DuplicateEstimate);
      }
      if task.assigneeId.None? || !(1 <= input.score <= 5) {
        return Err(IntegrityError);
      }
      var e := NewEvaluation(session.evaluationSeq + 1, input, currentUser, task);
      session.evaluationSeq := session.evaluationSeq + 1;
      session.evaluations := session.evaluations + [e];
      r := Ok(e);
    }
  }
}
