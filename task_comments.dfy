/** Comments on tasks (`TaskCommentService`). */
module TaskComments {
  import opened Wrappers
  import opened Domain
  import opened Seqs
  import opened Sorting
  import opened Store
  import MeetingSchemas

  const CONTENT_MAX_LENGTH: nat := 250

  /** `content: str` with `min_length=1, max_length=250` (`TaskCommentCreateSchema`). */
  function ContentErrors(content: string): (r: seq<MeetingSchemas.FieldError>)
    ensures r == [] <==> 1 <= |content| <= CONTENT_MAX_LENGTH
    ensures |r| <= 1
  {
    if |content| < 1 then [MeetingSchemas.StringTooShort("content", 1)]
    else if |content| > CONTENT_MAX_LENGTH then [MeetingSchemas.StringTooLong("content", CONTENT_MAX_LENGTH)]
    else []
  }

  /** The 400 of `check_user_command`: the reader is not in the task's team. */
  datatype CommentError = NotInTaskTeam

  /** `user.team_id != task.team_id`; a user without a team never matches a task's team. */
  function CheckUserCommand(user: User, task: Task): (r: Outcome<CommentError>)
    ensures r.Pass? <==> user.teamId == Some(task.teamId)
  {
    if user.teamId != Some(task.teamId) then Fail(NotInTaskTeam) else Pass
  }

  /** The sort key of `order_by(created_at.desc())`: ascending in it is newest first. */
  function NewestFirstKey(c: TaskComment): int {
    -c.createdAt
  }

  /** `get_task_comments`: the team check, then the task's comments, newest first. */
  function GetTaskComments(comments: seq<TaskComment>, task: Task, user: User): (r: Result<seq<TaskComment>, CommentError>)
    ensures r.Err? <==> user.teamId != Some(task.teamId)
  {
    if CheckUserCommand(user, task).Fail? then Err(NotInTaskTeam)
    else Ok(SortBy(Filter(comments, (c: TaskComment) => c.taskId == task.id), NewestFirstKey))
  }

  /**
   * For a member of the task's team, the listing holds exactly the task's
   * comments, each as often as stored, with `createdAt` non-increasing.
   */
  lemma GetTaskCommentsFacts(comments: seq<TaskComment>, task: Task, user: User, c: TaskComment)
    requires user.teamId == Some(task.teamId)
    ensures GetTaskComments(comments, task, user).Ok?
    ensures var r := GetTaskComments(comments, task, user).value;
      && (forall i, j :: 0 <= i < j < |r| ==> r[i].createdAt >= r[j].createdAt)
      && multiset(r)[c] == (if c.taskId == task.id then multiset(comments)[c] else 0)
      && (c in r <==> c in comments && c.taskId == task.id)
  {
    var p := (x: TaskComment) => x.taskId == task.id;
    var r := GetTaskComments(comments, task, user).value;
    SortByFacts(Filter(comments, p), NewestFirstKey);
    FilterMultiset(comments, p, c);
    forall i, j | 0 <= i < j < |r| ensures r[i].createdAt >= r[j].createdAt {
      assert NewestFirstKey(r[i]) <= NewestFirstKey(r[j]);
    }
  }

  /** The row `create_task_comment` inserts, stamped with the task and the author; `now` is the database clock. */
  function NewComment(id: int, task: Task, author: User, content: string, now: Instant): (r: TaskComment)
    ensures r.id == id && r.taskId == task.id && r.userId == author.id
    ensures r.content == content && r.createdAt == now
  {
    TaskComment(id, content, task.id, author.id, now)
  }

  /** A comment posted later than every earlier comment of its task heads that task's listing. */
  lemma NewestCommentListedFirst(comments: seq<TaskComment>, id: int, task: Task, author: User, content: string, now: Instant, reader: User)
    requires reader.teamId == Some(task.teamId)
    requires forall c :: c in comments && c.taskId == task.id ==> c.createdAt < now
    ensures var r := GetTaskComments(comments + [NewComment(id, task, author, content, now)], task, reader).value;
      |r| > 0 && r[0] == NewComment(id, task, author, content, now)
  {
    var c := NewComment(id, task, author, content, now);
    var s := comments + [c];
    GetTaskCommentsFacts(s, task, reader, c);
    var r := GetTaskComments(s, task, reader).value;
    assert c in s;
    var k :| 0 <= k < |r| && r[k] == c;
    GetTaskCommentsFacts(s, task, reader, r[0]);
    assert r[0] in r;
    assert r[0].createdAt >= now by {
      if k > 0 {
        assert r[0].createdAt >= r[k].createdAt;
      }
    }
    assert r[0] !in comments;
  }

  class TaskCommentService {
    const session: Session

    constructor (session: Session)
      ensures this.session == session
    {
      this.session := session;
    }

    /**
     * `create_task_comment`: no guard; the comment is inserted for the task,
     * authored by the caller, at the database's `now`.
     */
    method CreateTaskComment(task: Task, currentUser: User, content: string, now: Instant) returns (c: TaskComment)
      requires session.Valid()
      modifies session`comments, session`commentSeq
      ensures session.Valid()
      ensures c == NewComment(old(session.commentSeq) + 1, task, currentUser, content, now)
      ensures session.comments == old(session.comments) + [c] && session.commentSeq == old(session.commentSeq) + 1
    {
      c := NewComment(session.commentSeq + 1, task, currentUser, content, now);
      session.commentSeq := session.commentSeq + 1;
      session.comments := session.comments + [c];
    }
  }
}
