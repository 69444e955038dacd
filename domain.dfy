/**
 * The persisted records of the team manager (the ORM models), as values.
 * Instants are microseconds since 0001-01-01T00:00:00; ids are the tables'
 * integer primary keys. Creation/update timestamps are kept only where the
 * core reads them (a comment's `createdAt`).
 */
module Domain {
  import opened Wrappers

  type Instant = int

  /** `UserRole` (app/core/types/role.py), a string enum. */
  datatype UserRole = RoleUser | RoleManager | RoleAdmin {
    function Value(): string {
      match this
      case RoleUser => "user"
      case RoleManager => "manager"
      case RoleAdmin => "admin"
    }
  }

  /** `TaskStatus` (app/core/schemas/task.py), a string enum. */
  datatype TaskStatus = Open | InProgress | Completed {
    function Value(): string {
      match this
      case Open => "open"
      case InProgress => "in_progress"
      case Completed => "completed"
    }
  }

  /** The user columns the core reads: id, role and the nullable team reference. */
  datatype User = User(id: int, role: UserRole, teamId: Option<int>)

  /** Python truthiness of `user.team_id`: absent and 0 both mean "no team". */
  predicate HasTeam(u: User) {
    u.teamId.Some? && u.teamId.value != 0
  }

  datatype Team = Team(id: int, name: string, description: Option<string>, code: string, adminId: int)

  datatype Task = Task(
    id: int,
    title: string,
    description: Option<string>,
    deadline: Option<Instant>,
    status: TaskStatus,
    creatorId: int,
    assigneeId: Option<int>,
    teamId: int)

  datatype TaskComment = TaskComment(id: int, content: string, taskId: int, userId: int, createdAt: Instant)

  datatype Evaluation = Evaluation(
    id: int,
    score: int,
    comment: Option<string>,
    taskId: int,
    evaluatorId: int,
    userId: int)

  datatype Meeting = Meeting(
    id: int,
    title: string,
    description: Option<string>,
    start: Instant,
    end: Instant,
    isCancelled: bool,
    organizerId: int,
    teamId: int)

  /** A row of the `meeting_participants` join table. */
  datatype Participant = Participant(meetingId: int, userId: int)
}
