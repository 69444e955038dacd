/** Task creation (`TaskService.create_task`). */
module Tasks {
  import opened Wrappers
  import opened Domain
  import opened Seqs
  import opened Store
  import opened Gregorian
  import Calendars
  import TaskComments

  /** `tasks.title` is `String(250)`. */
  const TITLE_MAX_LENGTH: nat := 250

  /**
   * The creation payload: the task's own columns. `status` is `None` when the
   * payload leaves it to the column default.
   */
  datatype TaskCreate = TaskCreate(
    title: string,
    description: Option<string>,
    deadline: Option<Instant>,
    status: Option<TaskStatus>,
    assigneeId: Option<int>)

  datatype TaskError =
    | TaskNotTeam     // TaskNotTeamError: the caller has no team
    | DataError       // the title does not fit `VARCHAR(250)`
    | IntegrityError  // a foreign key (team or assignee) names no row

  /** What `create_task` raises: the guard on `current_user.team_id`, then the database's checks at commit. */
  function CreateFailure(users: map<int, User>, teams: seq<Team>, input: TaskCreate, creator: User): (r: Option<TaskError>)
    ensures r == Some(TaskNotTeam) <==> !HasTeam(creator)
    ensures r.None? <==>
      && HasTeam(creator) && |input.title| <= TITLE_MAX_LENGTH
      && IndexWhere(teams, (t: Team) => t.id == creator.teamId.value).Some?
      && (input.assigneeId.None? || input.assigneeId.value in users)
  {
    if !HasTeam(creator) then Some(TaskNotTeam)
    else if |input.title| > TITLE_MAX_LENGTH then Some(DataError)
    else if IndexWhere(teams, (t: Team) => t.id == creator.teamId.value).None? then Some(IntegrityError)
    else if input.assigneeId.Some? && input.assigneeId.value !in users then Some(IntegrityError)
    else None
  }

  /** The row `create_task` inserts: the payload, stamped with the creator and the creator's team. */
  function NewTask(id: int, input: TaskCreate, creator: User): (r: Task)
    requires HasTeam(creator)
    ensures r.id == id && r.creatorId == creator.id && Some(r.teamId) == creator.teamId
    ensures r.title == input.title && r.description == input.description && r.deadline == input.deadline
    ensures r.assigneeId == input.assigneeId
    ensures r.status == (if input.status.Some? then input.status.value else Open)
  {
    Task(id, input.title, input.description, input.deadline, input.status.GetOr(Open), creator.id, input.assigneeId, creator.teamId.value)
  }

  /** A new task with a deadline shows up on its team's calendar on the deadline's day. */
  lemma CreatedTaskOnItsDay(tasks: seq<Task>, meetings: seq<Meeting>, id: int, input: TaskCreate, creator: User, d: Date)
    requires HasTeam(creator) && ValidDate(d)
    requires input.deadline.Some? && Calendars.InWindow(input.deadline.value, d)
    ensures var t := NewTask(id, input, creator);
      Calendars.TaskEventOf(t) in Calendars.DayEvents(tasks + [t], meetings, d, creator.teamId.value)
  {
    var t := NewTask(id, input, creator);
    assert t in tasks + [t];
    assert Calendars.TaskOnDay(t, d, creator.teamId.value);
    Calendars.DayEventsFacts(tasks + [t], meetings, d, creator.teamId.value, Calendars.TaskEventOf(t));
  }

  /** The creator is in the new task's team, so the creator may read its comments. */
  lemma CreatorMayReadComments(comments: seq<TaskComment>, id: int, input: TaskCreate, creator: User)
    requires HasTeam(creator)
    ensures TaskComments.GetTaskComments(comments, NewTask(id, input, creator), creator).Ok?
  {
  }

  /** A new task's id is above every stored one, so the task table stays keyed. */
  lemma CreateKeepsKeys(tasks: seq<Task>, taskSeq: nat, input: TaskCreate, creator: User)
    requires TaskKeys(tasks, taskSeq) && HasTeam(creator)
    ensures TaskKeys(tasks + [NewTask(taskSeq + 1, input, creator)], taskSeq + 1)
  {
    var s := tasks + [NewTask(taskSeq + 1, input, creator)];
    forall i, j | 0 <= i < j < |s| ensures s[i].id != s[j].id {
      if j == |tasks| {
        assert s[i] == tasks[i];
      }
    }
  }

  class TaskService {
    const session: Session

    constructor (session: Session)
      ensures this.session == session
    {
      this.session := session;
    }

    /** `create_task`: fails without a team; otherwise inserts the stamped task. */
    method CreateTask(currentUser: User, input: TaskCreate) returns (r: Result<Task, TaskError>)
      requires session.Valid()
      modifies session`tasks, session`taskSeq
      ensures session.Valid()
      ensures var f := CreateFailure(old(session.users), old(session.teams), input, currentUser);
        && (f.Some? ==> r == Err(f.value) && session.tasks == old(session.tasks) && session.taskSeq == old(session.taskSeq))
        && (f.None? ==> HasTeam(currentUser) && r == Ok(NewTask(old(session.taskSeq) + 1, input, currentUser))
                        && session.tasks == old(session.tasks) + [r.value]
                        && session.taskSeq == old(session.taskSeq) + 1)
    {
      var f := CreateFailure(session.users, session.teams, input, currentUser);
      if f.Some? {
        return Err(f.value);
      }
      var t := NewTask(session.taskSeq + 1, input, currentUser);
      CreateKeepsKeys(session.tasks, session.taskSeq, input, currentUser);
      session.taskSeq := session.taskSeq + 1;
      session.tasks := session.tasks + [t];
      r := Ok(t);
    }
  }
}
