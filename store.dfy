/**
 * The database behind the services' `AsyncSession`: one field per table.
 * Every service call is one atomic step on it; a call that raises leaves it
 * as it was (the session is rolled back or never committed).
 */
module Store {
  import opened Domain

  class Session {
    /** The `users` table, keyed by primary key (`session.get(User, id)`). */
    var users: map<int, User>
    var teams: seq<Team>
    var tasks: seq<Task>
    var comments: seq<TaskComment>
    var evaluations: seq<Evaluation>
    var meetings: seq<Meeting>
    var participants: seq<Participant>
    /** The last value handed out by each table's primary-key sequence. */
    var teamSeq: nat
    var taskSeq: nat
    var commentSeq: nat
    var evaluationSeq: nat
    var meetingSeq: nat

    /** The constraints the database enforces on every table. */
    ghost predicate Valid()
      reads this
    {
      PeopleValid() && WorkValid() && MeetingKeys(meetings, participants, meetingSeq) && ParticipantRefs(users, meetings, participants)
    }

    /** Users and teams. */
    ghost predicate PeopleValid()
      reads this
    {
      UsersKeyed(users) && TeamKeys(teams, teamSeq) && TeamUnique(teams)
    }

    /** Tasks, their comments and their evaluations. */
    ghost predicate WorkValid()
      reads this
    {
      TaskKeys(tasks, taskSeq) && CommentKeys(comments, commentSeq) && EvaluationKeys(evaluations, evaluationSeq)
    }

    /** An empty database. */
    constructor (users: map<int, User>)
      requires UsersKeyed(users)
      ensures Valid()
      ensures this.users == users
      ensures teams == [] && tasks == [] && comments == [] && evaluations == []
      ensures meetings == [] && participants == []
    {
      this.users := users;
      teams, tasks, comments, evaluations := [], [], [], [];
      meetings, participants := [], [];
      teamSeq, taskSeq, commentSeq, evaluationSeq, meetingSeq := 0, 0, 0, 0, 0;
    }
  }

  ghost predicate UsersKeyed(users: map<int, User>) {
    forall k :: k in users ==> users[k].id == k
  }

  /** Primary keys are unique, and no key is above its sequence's last value. */
  ghost predicate TeamKeys(teams: seq<Team>, teamSeq: nat) {
    && (forall i :: 0 <= i < |teams| ==> 1 <= teams[i].id <= teamSeq)
    && (forall i, j :: 0 <= i < j < |teams| ==> teams[i].id != teams[j].id)
  }

  /** The unique constraints on `teams.name` and `teams.code`. */
  ghost predicate TeamUnique(teams: seq<Team>) {
    forall i, j :: 0 <= i < j < |teams| ==> teams[i].name != teams[j].name && teams[i].code != teams[j].code
  }

  ghost predicate TaskKeys(tasks: seq<Task>, taskSeq: nat) {
    && (forall i :: 0 <= i < |tasks| ==> 1 <= tasks[i].id <= taskSeq)
    && (forall i, j :: 0 <= i < j < |tasks| ==> tasks[i].id != tasks[j].id)
  }

  ghost predicate CommentKeys(comments: seq<TaskComment>, commentSeq: nat) {
    && (forall i :: 0 <= i < |comments| ==> 1 <= comments[i].id <= commentSeq)
    && (forall i, j :: 0 <= i < j < |comments| ==> comments[i].id != comments[j].id)
  }

  /** Keys, plus the check constraint `score >= 1 AND score <= 5`. */
  ghost predicate EvaluationKeys(evaluations: seq<Evaluation>, evaluationSeq: nat) {
    && (forall i :: 0 <= i < |evaluations| ==> 1 <= evaluations[i].id <= evaluationSeq)
    && (forall i, j :: 0 <= i < j < |evaluations| ==> evaluations[i].id != evaluations[j].id)
    && (forall i :: 0 <= i < |evaluations| ==> 1 <= evaluations[i].score <= 5)
  }

  /** Keys, plus no participant row naming a meeting id the sequence has not handed out. */
  ghost predicate MeetingKeys(meetings: seq<Meeting>, participants: seq<Participant>, meetingSeq: nat) {
    && (forall i :: 0 <= i < |meetings| ==> 1 <= meetings[i].id <= meetingSeq)
    && (forall i, j :: 0 <= i < j < |meetings| ==> meetings[i].id != meetings[j].id)
    && (forall i :: 0 <= i < |participants| ==> 1 <= participants[i].meetingId <= meetingSeq)
  }

  /** The foreign keys of one join row, `meeting_id -> meetings.id` and `user_id -> users.id`. */
  ghost predicate RowRefs(users: map<int, User>, meetings: seq<Meeting>, p: Participant) {
    p.userId in users && exists j :: 0 <= j < |meetings| && meetings[j].id == p.meetingId
  }

  ghost predicate ParticipantRefs(users: map<int, User>, meetings: seq<Meeting>, participants: seq<Participant>) {
    forall i :: 0 <= i < |participants| ==> RowRefs(users, meetings, participants[i])
  }
}
