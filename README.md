# ManagePro service core in Dafny

This project models the service layer of ManagePro, a FastAPI/SQLAlchemy team
manager. A team's admin adds users to the team. Users create tasks, comment on
them and evaluate completed ones. They schedule meetings with conflict
detection. A calendar merges the team's task deadlines and meetings per day
and per month. Role and permission guards decide who may do what.

The database session is modelled as one object, `Store.Session`. Its fields
are the tables:
- `users`, a map keyed by id;
- `teams`, `tasks`, `comments`, `evaluations`, `meetings` and the
  `participants` join table, as sequences in insertion order;
- one id sequence per table.

`Session.Valid()` collects the primary-key and foreign-key facts the schema
enforces. Each service (`MeetingService`, `CalendarService`, `TeamService`,
`EvaluationService`, `TaskCommentService`, `TaskService`, `UserService`) is a
class holding the session. Each state-changing operation is a method that:
- `modifies` only the tables it writes;
- keeps `Valid()`;
- states the whole new state as a function of the old one, including the
  error cases, where nothing changes.

Queries and guards are functions over table values. Each has lemmas stating
what the source promises about it.

Time is an integer count of microseconds since 0001-01-01T00:00:00. Dates are
proleptic Gregorian dates, and `Gregorian` gives their ordinals and weekdays
as Python's `datetime.date.toordinal`, `date.weekday` and
`calendar.monthcalendar` compute them. An exception raised by the source is
an `Err`/`Fail` value naming the error. Database constraint failures at
commit (`IntegrityError`, `DataError`) are modelled where a payload can
trigger them.

Modules, one per source file of the core plus shared ones:
- `Wrappers`: Option, Result, Outcome.
- `Seqs`: filter, index search, offset and limit.
- `Sorting`: a stable sort by key, standing for Python's `sorted` and SQL
  `ORDER BY`.
- `Domain`: the records.
- `Store`: the tables.
- The service modules: `Meetings`, `MeetingValidators`, `MeetingSchemas`,
  `Calendars`, `CalendarSchemas`, `Gregorian`, `Teams`, `Evaluations`,
  `TaskComments`, `Tasks`, `Users`.
- The guard modules: `RoleExceptions`, `RoleValidators`, `Permissions`.

## Model

| member | source | states |
|---|---|---|
| Meetings.ClausesAreOverlap | app/crud/meetings.py:149-162 | for ranges with start before end, the three OR'd clauses hold iff the two half-open ranges share an instant |
| Meetings.TouchingNeverConflicts | app/crud/meetings.py:149-162 | back-to-back meetings (one ends where the other starts) never satisfy the clauses |
| Meetings.ConflictSymmetric | app/crud/meetings.py:149-162 | for well-formed ranges, swapping the existing and the candidate range does not change the verdict |
| Meetings.InvertedRangeStillBlocks | app/crud/meetings.py:149-162 | a stored range whose end precedes its start still satisfies the clauses against a range it does not overlap |
| Meetings.UserMeetingRows | app/crud/meetings.py:143-147 | the join of meetings with the user's participant rows yields only stored meetings that list the user, at most one per row |
| Meetings.UserMeetingRowsMembership | app/crud/meetings.py:143-147 | a meeting is in the join iff it is stored and has a participant row for the user |
| Meetings.HasConflictIff | app/crud/meetings.py:143-175 | the conflict error is raised iff some stored, non-cancelled meeting lists the user, is not the excluded one and meets the clauses |
| Meetings.NeverConflictsWithItself | app/crud/meetings.py:166-167 | excluding a meeting's own non-zero id means it never conflicts with itself |
| Meetings.GetMeeting | app/crud/meetings.py:61-73 | the result is a stored meeting with that id organised by the caller, and there is none exactly when no such meeting exists |
| Meetings.GetMeetingOrganizerOnly | app/crud/meetings.py:66-69 | a stored meeting is returned to its organizer and to nobody else |
| Meetings.GetUserMeetings | app/crud/meetings.py:75-94 | at most `limit` meetings, each stored, listing the user, and not cancelled unless cancelled ones were requested |
| Meetings.GetUserMeetingsComplete | app/crud/meetings.py:82-91 | on the first page with a limit covering every row, every qualifying meeting is listed |
| Meetings.ParticipantRows | app/crud/meetings.py:53-55 | one join row per listed id, in list order |
| Meetings.NewParticipantRows | app/crud/meetings.py:53-55 | the loop adding participant rows yields exactly one row per listed id, in order |
| Meetings.DeleteParticipantsEffect | app/crud/meetings.py:115-119 | after the delete the meeting has no participants and every other meeting keeps its own |
| Meetings.ReplaceParticipantsEffect | app/crud/meetings.py:114-122 | after delete-and-reinsert the meeting's participants are exactly the new list and every other meeting's are unchanged |
| Meetings.AppendParticipantsEffect | app/crud/meetings.py:52-55 | the rows of a new meeting give it exactly the listed participants and leave other meetings' lists unchanged |
| Meetings.ReadMeeting | app/core/schemas/meeting.py:27-36 | the response carries the meeting's id and its participant ids as the join table holds them |
| Meetings.FirstParticipantFailure | app/crud/meetings.py:33-38 | the create's checks pass iff every listed participant is loaded and free; otherwise the error is that of a listed participant |
| Meetings.FirstParticipantFailureAt | app/crud/meetings.py:33-38 | the error raised is that of the first failing participant in list order |
| Meetings.ValidatedParticipantsOnlyConflict | app/crud/meetings.py:33-38 | once the participant validator has passed, only a time conflict can stop the create's checks |
| Meetings.NewMeeting | app/crud/meetings.py:41-48 | the new meeting copies title, description, start and end, takes the organizer and the organizer's team, and is not cancelled |
| Meetings.OverlappingCreateRejected | app/crud/meetings.py:33-38 | a participant busy 10:00-11:00 makes a 10:30-11:30 meeting fail with the time conflict |
| Meetings.PatchMeetingFields | app/crud/meetings.py:110-112 | every sent field is overwritten, a sent null clears the description, unsent fields and the keys stay |
| Meetings.EmptyPatchIsIdentity | app/crud/meetings.py:102-112 | an empty patch never fails and leaves the meeting unchanged |
| Meetings.UpdateIgnoresParticipantConflicts | app/crud/meetings.py:102-108 | an update succeeds although another participant is busy in the new slot, because only the acting user is checked |
| Meetings.UpdateMayInvertRange | app/crud/meetings.py:102-112 | moving only the start past the end is accepted, and the stored range then fails the time validator |
| Meetings.UpdateMayUncancel | app/core/schemas/meeting.py:23 | an update sending `is_cancelled = false` succeeds and reinstates a cancelled meeting |
| Meetings.Cancelled | app/crud/meetings.py:131 | the cancelled meeting has the flag set and every other field as before |
| Meetings.CancelIdempotent | app/crud/meetings.py:127-133 | cancelling twice is cancelling once |
| Meetings.CancelledIsInert | app/crud/meetings.py:148 | a cancelled meeting conflicts with nothing and is left out of the default listing |
| Meetings.CreateKeepsKeys | app/core/models/meeting_participant.py:18-20 | the new meeting with the next id, plus its rows for loaded users, keeps ids unique and every participant row naming a stored meeting and a stored user |
| Meetings.PatchKeepsKeys | app/core/models/meeting_participant.py:18-20 | a patch that keeps the meeting's id keeps the same keys and foreign keys |
| Meetings.ReplaceKeepsKeys | app/core/models/meeting_participant.py:18-20 | replacing a stored meeting's rows by rows for loaded users keeps the same keys and foreign keys |
| Meetings.UpdateKeepsKeys | app/core/models/meeting_participant.py:18-20 | a patch that keeps the id, plus a replace of its rows by loaded users, keeps the same keys and foreign keys |
| Meetings.MeetingService.CheckParticipants | app/crud/meetings.py:33-38 | the loop over participants returns exactly the first missing-or-busy participant's error, or none |
| Meetings.MeetingService.CreateMeeting | app/crud/meetings.py:27-59 | on a participant failure or a missing team nothing changes; otherwise one meeting and its rows are appended and the id sequence advances |
| Meetings.MeetingService.StoreCreate | app/crud/meetings.py:41-57 | the commit appends the meeting and one row per listed id, advances the id sequence and keeps the store valid |
| Meetings.MeetingService.UpdateMeeting | app/crud/meetings.py:96-125 | on a conflict of the acting user or a constraint failure nothing changes; otherwise the meeting is patched in place and its rows replaced when a list was sent |
| Meetings.MeetingService.StoreUpdate | app/crud/meetings.py:110-123 | the commit writes the patched meeting in place, replaces its rows when a list was sent, and keeps the store valid |
| Meetings.MeetingService.CancelMeeting | app/crud/meetings.py:127-133 | the stored meeting is replaced by its cancelled form; no other meeting changes |
| MeetingValidators.CheckMeetingTime | app/api/api_v1/validators/meeting_validators.py:10-17 | passes iff the end is strictly after the start |
| MeetingValidators.ParticipantsPassIff | app/api/api_v1/validators/meeting_validators.py:20-32 | the found-count check passes iff every id is a user of the team and no id repeats |
| MeetingValidators.ForeignParticipantRejected | app/api/api_v1/validators/meeting_validators.py:29-32 | an unknown id, or a user of another team, is rejected |
| MeetingValidators.DuplicateParticipantRejected | app/api/api_v1/validators/meeting_validators.py:23-29 | a repeated id is rejected even when that user is in the team |
| MeetingValidators.EmptyParticipantsPass | app/api/api_v1/validators/meeting_validators.py:29 | an empty list passes |
| MeetingSchemas.TitleErrors | app/core/schemas/meeting.py:8 | no error iff the title has 1..250 characters, and at most one error |
| MeetingSchemas.DescriptionErrors | app/core/schemas/meeting.py:9 | no error iff the description is absent or at most 250 characters |
| MeetingSchemas.CreateErrors | app/core/schemas/meeting.py:7-15 | a create payload is valid iff both its title and description constraints hold |
| MeetingSchemas.UpdateErrors | app/core/schemas/meeting.py:18-24 | an update payload is valid iff a sent title has 1..250 characters and a sent description at most 250 |
| MeetingSchemas.ToRead | app/core/schemas/meeting.py:27-36 | the read shape exposes the meeting's fields and the given participant list |
| Calendars.WindowIsDay | app/crud/calendars.py:54-55 | an instant lies in a day's inclusive window iff it falls on that day |
| Calendars.WindowsDisjoint | app/crud/calendars.py:54-55 | no instant lies in the windows of two different days |
| Calendars.WindowsAdjacent | app/crud/calendars.py:54-55 | the next day's window starts one microsecond after this day's window ends |
| Calendars.TaskEventOf | app/crud/calendars.py:87-98 | a task event starts and ends at the deadline, has type task and the task's status |
| Calendars.MeetingEventOf | app/crud/calendars.py:101-112 | a meeting event keeps the stored start and end, has type meeting and no status |
| Calendars.TaskEventsOf | app/crud/calendars.py:86-98 | one event per task, in order |
| Calendars.MeetingEventsOf | app/crud/calendars.py:100-112 | one event per meeting, in order |
| Calendars.TaskEventsMembership | app/crud/calendars.py:57-64 | an event is among the task events iff it projects a task of the team due inside the window |
| Calendars.MeetingEventsMembership | app/crud/calendars.py:66-82 | an event is among the meeting events iff it projects a non-cancelled meeting of the team starting or ending inside the window |
| Calendars.DayEventsFacts | app/crud/calendars.py:84-114 | the day's events are sorted by start, one per selected task plus one per selected meeting, and are exactly their projections |
| Calendars.TasksFirstOnTies | app/crud/calendars.py:114 | the sort is stable: at equal start, task events come first in fetch order, then meeting events in fetch order |
| Calendars.SpanningMeetingExcluded | app/crud/calendars.py:66-81 | a meeting running from the day before to the day after is not on the day |
| Calendars.NoDeadlineNoEvent | app/crud/calendars.py:57-63 | a task without a deadline is on no day |
| Calendars.ExampleDay | app/crud/calendars.py:49-114 | on 2024-01-01 a 10:00-11:00 meeting is listed before a task due at 12:00 |
| Calendars.ProjectTasks | app/crud/calendars.py:86-98 | the first append loop yields one task event per selected task, in order |
| Calendars.ProjectMeetings | app/crud/calendars.py:100-112 | the second append loop yields one meeting event per selected meeting, in order |
| Calendars.CalendarService.EventsForDate | app/crud/calendars.py:49-114 | the events for a date are the sorted merge of the day's task and meeting events |
| Calendars.CalendarService.GetDayView | app/crud/calendars.py:41-47 | the day view holds the date and its events |
| Calendars.CalendarService.WeekDays | app/crud/calendars.py:29-33 | walking one week of the month grid appends the day views of that week's days, in order |
| Calendars.CalendarService.GetMonthView | app/crud/calendars.py:19-39 | bad month and bad year give their errors; otherwise one day view per day 1..N, in order, each equal to the day view of that date |
| Gregorian.FebruaryLengths | app/crud/calendars.py:25 | February has 29 days in 2024 and 2000, 28 in 2030 and 1900 |
| Gregorian.YearLength | app/crud/calendars.py:31 | a year has 366 days if leap and 365 otherwise, and ordinals advance by that much per year |
| Gregorian.NextDayOrdinal | app/crud/calendars.py:31 | the next calendar day is a valid date with the next ordinal |
| Gregorian.KnownMonday | app/crud/calendars.py:25 | 2024-01-01 has ordinal 738886 and is a Monday |
| Gregorian.WeekdayInMonth | app/crud/calendars.py:25 | the weekday of day d is d - 1 steps on from the weekday of the first |
| Gregorian.MonthCalendarCell | app/crud/calendars.py:25 | each grid cell holds its day number, or 0 outside the month |
| Gregorian.MonthCalendarLength | app/crud/calendars.py:25 | the grid has 4 to 6 weeks and covers the whole month |
| Gregorian.MonthCalendarDays | app/crud/calendars.py:25 | every week has seven cells, and the non-zero cells, week by week, are exactly the days 1..N |
| Gregorian.MonthCalendarColumns | app/crud/calendars.py:25 | day d sits in the column of its weekday, Monday first |
| Teams.NewTeam | app/crud/teams.py:20 | the new team copies name, description and code and has the creator as admin |
| Teams.TeamById | app/crud/teams.py:35 | the lookup finds a stored team with that id, and none exactly when no team has it |
| Teams.AddFailure | app/crud/teams.py:35-54 | 404 iff team or user is missing; else 403 iff the caller is not the admin; else 400 iff the user already has a team |
| Teams.SecondAddFails | tests/test_api/test_teams.py:85-104 | after a successful add, adding the same user again fails with 400 |
| Teams.JoinedChangesOnlyTeamOfUser | app/crud/teams.py:56 | joining sets the one user's team to the team and changes nothing else |
| Teams.CreateTwiceConflicts | app/core/models/team.py:28-30 | after a create, another team with the same name or code violates the unique constraints |
| Teams.TeamService.CreateTeam | app/crud/teams.py:15-27 | a taken name or code gives 400 and no change; otherwise the new team is appended |
| Teams.TeamService.AddUserToTeam | app/crud/teams.py:29-57 | a failing guard changes nothing; otherwise the user joins the team |
| Evaluations.NewEvaluation | app/crud/evaluations.py:67-72 | the new evaluation has the evaluator, the task, the task's assignee as the evaluated user, and the payload's score and comment |
| Evaluations.OnePerEvaluatorAtMostOne | app/crud/validators/evaluation_validators.py:6-10 | with one evaluation per evaluator and task, the duplicate query returns at most one row |
| Evaluations.NoMultipleResults | app/crud/evaluations.py:59-65 | in such a store the duplicate check never meets two rows |
| Evaluations.CreateKeepsOnePerEvaluator | app/crud/evaluations.py:59-74 | a successful create keeps one evaluation per evaluator and task |
| Evaluations.SecondCreateFails | tests/test_servises/test_evaluations.py:133-158 | after a successful create, the same evaluator's second create for the task fails as a duplicate |
| Evaluations.ValidCreateSucceeds | app/crud/evaluations.py:57-72 | a valid payload, a completed assigned task, and no earlier evaluation by the evaluator give success |
| Evaluations.GetEvaluationsFacts | app/crud/evaluations.py:21-32 | the listing holds exactly the user's evaluations, each as often as stored, in id order |
| Evaluations.EvaluationService.CreateEvaluation | app/crud/evaluations.py:51-77 | a failing check changes nothing; otherwise the new evaluation is appended with the next id |
| TaskComments.ContentErrors | app/core/schemas/task_comment.py:8 | no error iff the content has 1..250 characters |
| TaskComments.CheckUserCommand | app/api/api_v1/validators/task_validators.py:34-44 | passes iff the user's team is the task's team |
| TaskComments.GetTaskComments | app/crud/task_comments.py:13-29 | the listing fails iff the reader is not in the task's team |
| TaskComments.GetTaskCommentsFacts | app/crud/task_comments.py:20-24 | a team member gets exactly the task's comments, each as often as stored, newest first |
| TaskComments.NewComment | app/crud/task_comments.py:40-44 | the new comment has the task, the author, the content and the creation time |
| TaskComments.NewestCommentListedFirst | app/crud/task_comments.py:23 | a comment newer than every other comment of its task heads that task's listing |
| TaskComments.TaskCommentService.CreateTaskComment | app/crud/task_comments.py:32-50 | the new comment is appended with the next id |
| Tasks.CreateFailure | app/crud/tasks.py:17-26 | fails with the no-team error iff the creator has no team; succeeds iff also the title fits and the team and assignee exist |
| Tasks.NewTask | app/crud/tasks.py:20-24 | the new task copies the payload, takes the creator and the creator's team, and defaults its status to open |
| Tasks.CreatedTaskOnItsDay | app/crud/tasks.py:20-24 | a new task with a deadline appears on its team's calendar on the deadline's day |
| Tasks.CreatorMayReadComments | app/crud/tasks.py:23 | the creator is in the new task's team, so may list its comments |
| Tasks.TaskService.CreateTask | app/crud/tasks.py:12-28 | a failure changes nothing; otherwise the new task is appended with the next id |
| Users.RoleChangeFailure | app/crud/users.py:18-30 | 404 iff the target is missing; 400 iff the target is the caller; no error otherwise |
| Users.WithRole | app/crud/users.py:32 | only the target's role changes, to the requested role |
| Users.CallerRoleUnchanged | app/crud/users.py:26-32 | a granted change keeps the table keyed and leaves the caller's row unchanged |
| Users.WithRoleIdempotent | app/crud/users.py:32 | setting a role twice is setting it once |
| Users.UserService.UpdateUserRole | app/crud/users.py:12-33 | a failing guard changes nothing; otherwise the target's role is replaced |
| RoleExceptions.NewRoleError | app/exceptions/role_exceptions.py:7-16 | the error stores the given message, role and user id |
| RoleExceptions.AdminRequiredError | app/exceptions/role_exceptions.py:28-34 | the role is fixed to "admin" |
| RoleExceptions.ManagerRequiredError | app/exceptions/role_exceptions.py:37-43 | the role is fixed to "manager" |
| RoleExceptions.UserRoleRequiredError | app/exceptions/role_exceptions.py:46-54 | the role is fixed to "user" |
| RoleExceptions.InvalidRoleError | app/exceptions/role_exceptions.py:57-66 | the role is kept as given |
| RoleExceptions.NatToStringRoundTrip | app/exceptions/role_exceptions.py:20 | the decimal numeral of a user id reads back as the id |
| RoleExceptions.Str | app/exceptions/role_exceptions.py:18-25 | the four forms of the string, chosen by the truthiness of role and user id |
| RoleExceptions.StrExtendsMessage | app/exceptions/role_exceptions.py:18-25 | every form starts with the message, and is the message alone iff neither detail is set |
| RoleExceptions.AdminRequiredExample | app/exceptions/role_exceptions.py:19-20 | the admin error for user 7 reads "User must be an admin (User 7, Required role: admin)" |
| RoleExceptions.ZeroUserIdOmitted | app/exceptions/role_exceptions.py:19-22 | a user id of 0 is falsy and left out of the text |
| RoleValidators.Normalize | app/crud/validators/role_validators.py:27-28 | a single role becomes the one-element list |
| RoleValidators.EnsureUserRole | app/crud/validators/role_validators.py:11-40 | passes iff the user's role is required; else the admin, manager or user error by priority, and otherwise the generic error with the caller's message |
| RoleValidators.SingleRoleIsSingletonList | app/crud/validators/role_validators.py:27-28 | a single role behaves as the list holding it |
| RoleValidators.GenericOnlyForEmptyList | app/crud/validators/role_validators.py:37-40 | the generic error is raised iff the list is empty, and then carries the role text "[]" |
| RoleValidators.ErrorNamesMissingRole | app/crud/validators/role_validators.py:30-36 | a specific error names a required role the user lacks |
| RoleValidators.AdminErrorWins | app/crud/validators/role_validators.py:31-32 | a plain user refused a manager-or-admin check gets the admin error |
| Permissions.EnsureUserHasTeam | app/crud/validators/permissions.py:20-24 | raises iff the team id is absent or zero |
| Permissions.CheckTaskOwner | app/crud/validators/permissions.py:27-32 | raises iff the task's creator is not the user |
| Permissions.ValidateTeamAccess | app/crud/validators/permissions.py:35-40 | raises iff the user's team is not the team |
| Permissions.EnsureUserInTeam | app/crud/validators/permissions.py:43-48 | raises iff the user's team is not the team |
| Permissions.CheckTeamAdmin | app/crud/validators/permissions.py:51-56 | raises iff the team's admin is not the user, naming the team |
| Permissions.EnsureUserIsAdmin | app/crud/validators/permissions.py:59-63 | raises iff the user's role is not admin |
| Permissions.EnsureUserNotInTeam | app/crud/validators/permissions.py:66-70 | raises iff the user has a truthy team id, carrying that id |
| Permissions.DisallowAdminAssignment | app/crud/validators/permissions.py:73-77 | raises iff the requested role is "admin" |
| Permissions.RemoveTeamAdmin | app/crud/validators/permissions.py:80-85 | raises iff the user is the team's admin |
| Permissions.EnsureUserExists | app/crud/validators/permissions.py:88-92 | raises iff there is no user |
| Permissions.DisallowSelfRoleChange | app/crud/validators/permissions.py:95-100 | raises iff the target is the caller, and fails on a missing target when reading its id |
| Permissions.TeamGuardsComplementary | app/crud/validators/permissions.py:66-70 | exactly one of the has-team and not-in-team guards passes |
| Permissions.AdminGuardsComplementary | app/crud/validators/permissions.py:80-85 | exactly one of the is-admin and not-admin team guards passes |
| Permissions.AccessIsMembership | app/crud/validators/permissions.py:35-48 | the access and membership guards accept the same users and differ only in their errors |
| Permissions.AdminRoleGuards | app/crud/validators/permissions.py:73-77 | the admin-role guard passes iff the admin-assignment guard refuses that role |
| Permissions.ExistsThenNoAttributeError | app/crud/validators/permissions.py:88-100 | after the existence guard passes, the self-change guard cannot fail on a missing target |
| Permissions.RoleChangeGuardsAgree | app/crud/validators/permissions.py:88-100 | the two user guards accept exactly the role changes the user service grants |
| Permissions.TaskGuardAgrees | app/crud/validators/permissions.py:20-24 | task creation refuses a user exactly as the has-team guard does |

## Notes on the code

The model follows the code in each case below.
- `update_meeting` checks only the acting user for a time conflict, not the
  other participants (app/crud/meetings.py:102-108;
  `UpdateIgnoresParticipantConflicts`).
- The day query selects a meeting only when its start or its end falls inside
  the day's window, so a meeting spanning the whole day is left out
  (app/crud/calendars.py:66-81; `SpanningMeetingExcluded`).
- `update_meeting` does not re-check that the end follows the start, so an
  update can store an inverted range; for such a range the three conflict
  clauses differ from interval overlap (app/crud/meetings.py:102-112 and
  149-162; `UpdateMayInvertRange`, `InvertedRangeStillBlocks`).
- `create_meeting` writes one join row per listed id, duplicates included
  (app/crud/meetings.py:53-55); only the endpoint validator rejects
  duplicates (app/api/api_v1/validators/meeting_validators.py:23-29).
- The evaluation lemmas assume `Evaluations.OnePerEvaluator`, at most one
  evaluation per task and evaluator. It is not part of `Session.Valid()`,
  since no database constraint enforces it; the service's duplicate check
  maintains it (`CreateKeepsOnePerEvaluator`).

Further notes on the source:
- `app/crud/task_comments.py` imports `check_user_command` from the crud
  validators, which do not define it. The same-named check in
  `app/api/api_v1/validators/task_validators.py` is modelled.
- `app/crud/validators/permissions.py` imports `UserCannotChangeRole`,
  which `app/exceptions/user_exceptions.py` does not define. The guards are
  modelled as written, with that error as a named kind.
- `TaskCreateShema` is not defined in `app/core/schemas/task.py`. The payload
  is modelled as the task's own columns, with the status left to its
  column default.
- `ensure_user_not_in_team` passes the user's team id where
  `UserAlreadyInTeamError` expects a user id; the model keeps that.
- `calendar.monthcalendar` raises on a month outside 1..12 before
  `date(...)` can reject the year, so the month error takes precedence.

## Left out

- `EvaluationService.get_average_score`: a floating-point SQL average, outside the core.
- `TaskService.update_task`: it refers to an undefined `task` and cannot run.
- Routers, HTML views, authentication, configuration and migrations: request plumbing and foreign-library calls.
- Async execution and the time-of-check/time-of-use race between concurrent creates: each service call is one atomic step on the store.
- Sequence values consumed by failed inserts: the model advances a table's id only on a successful insert.
- `created_at` and `updated_at` timestamps: left out, except a comment's creation time, which is a parameter standing for the database clock.
- ORM identity and aliasing: rows are values, and an update writes the stored row.
- The surrogate id column of the participant join table: rows are (meeting, user) pairs.
- The calendar event schema's own field limits (such as a 1000-character title): they only shape responses.
- Negative `skip` or `limit`: these are natural numbers in the model, whereas SQL rejects negative values.
- HTTP messages and status translation: errors are named kinds, with the status codes the services raise kept on `Teams.TeamError` and `Users.UserError`.
- `app/exceptions/base_exceptions.py` is not part of this model; `RoleError` is modelled on its own fields.
- Meetings.GetUserMeetings: without `ORDER BY` the database's row order is unspecified; the model lists meetings in participant-row order, and completeness is proved only for a first page whose limit covers every row.
- Evaluations.GetEvaluationsFacts: states non-decreasing id order; that ids are strictly ascending, as unique primary keys make them, is not derived.
- Calendars.DayEvents: the task and meeting queries have no `ORDER BY`; the model takes each table's stored order as the fetch order.
- Gregorian.DaysInMonth: its own contract states only the 28..31 bound; the exact lengths follow from its definition and `Gregorian.FebruaryLengths`.
