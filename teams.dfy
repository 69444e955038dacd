/** Team creation and membership (`TeamService`). */
module Teams {
  import opened Wrappers
  import opened Domain
  import opened Seqs
  import opened Store

  /** `TeamCreateSchema`: name and code 1..50 characters, description at most 1000. */
  datatype TeamCreate = TeamCreate(name: string, description: Option<string>, code: string)

  predicate ValidTeamCreate(t: TeamCreate) {
    1 <= |t.name| <= 50 && 1 <= |t.code| <= 50 && (t.description.None? || |t.description.value| <= 1000)
  }

  datatype TeamError =
    | TeamCodeExists        // the unique constraint on name or code failed
    | TeamOrUserNotFound
    | NotTeamAdmin
    | UserAlreadyInTeam
  {
    /** The HTTP status the service raises. */
    function Status(): int {
      match this
      case TeamCodeExists => 400
      case TeamOrUserNotFound => 404
      case NotTeamAdmin => 403
      case UserAlreadyInTeam => 400
    }
  }

  /** The insert violates `UNIQUE (name)` or `UNIQUE (code)`. */
  predicate NameOrCodeTaken(teams: seq<Team>, t: TeamCreate) {
    IndexWhere(teams, (x: Team) => x.name == t.name || x.code == t.code).Some?
  }

  /** The row `create_team` inserts: the payload's fields with the creator as admin. */
  function NewTeam(id: int, t: TeamCreate, creator: User): (r: Team)
    ensures r.id == id && r.adminId == creator.id
    ensures r.name == t.name && r.description == t.description && r.code == t.code
  {
    Team(id, t.name, t.description, t.code, creator.id)
  }

  /** `session.get(Team, id)`. */
  function TeamById(teams: seq<Team>, teamId: int): (r: Option<Team>)
    ensures r.Some? ==> r.value in teams && r.value.id == teamId
    ensures r.None? <==> forall i :: 0 <= i < |teams| ==> teams[i].id != teamId
  {
    match IndexWhere(teams, (x: Team) => x.id == teamId)
    case Some(k) => Some(teams[k])
    case None => None
  }

  /** The guards of `add_user_to_team`, in order: 404, then 403, then 400. */
  function AddFailure(teams: seq<Team>, users: map<int, User>, teamId: int, userId: int, currentUser: User): (r: Option<TeamError>)
    ensures r == Some(TeamOrUserNotFound) <==> TeamById(teams, teamId).None? || userId !in users
    ensures r == Some(NotTeamAdmin) <==>
      TeamById(teams, teamId).Some? && userId in users && TeamById(teams, teamId).value.adminId != currentUser.id
    ensures r == Some(UserAlreadyInTeam) <==>
      TeamById(teams, teamId).Some? && userId in users && TeamById(teams, teamId).value.adminId == currentUser.id
      && users[userId].teamId.Some?
    ensures r.Some? ==> r.value != TeamCodeExists
  {
    var team := TeamById(teams, teamId);
    if team.None? || userId !in users then Some(TeamOrUserNotFound)
    else if team.value.adminId != currentUser.id then Some(NotTeamAdmin)
    else if users[userId].teamId.Some? then Some(UserAlreadyInTeam)
    else None
  }

  /** The users table after `user.team_id = team_id`. */
  function Joined(users: map<int, User>, teamId: int, userId: int): map<int, User>
    requires userId in users
  {
    users[userId := users[userId].(teamId := Some(teamId))]
  }

  /** Adding the same user again, by the same admin, fails with 400. */
  lemma SecondAddFails(teams: seq<Team>, users: map<int, User>, teamId: int, userId: int, currentUser: User)
    requires AddFailure(teams, users, teamId, userId, currentUser).None?
    ensures AddFailure(teams, Joined(users, teamId, userId), teamId, userId, currentUser) == Some(UserAlreadyInTeam)
  {
  }

  /** A successful add changes the one user's team and nothing else. */
  lemma JoinedChangesOnlyTeamOfUser(users: map<int, User>, teamId: int, userId: int, k: int)
    requires userId in users && UsersKeyed(users)
    ensures UsersKeyed(Joined(users, teamId, userId)) && Joined(users, teamId, userId).Keys == users.Keys
    ensures k in users && k != userId ==> Joined(users, teamId, userId)[k] == users[k]
    ensures Joined(users, teamId, userId)[userId].teamId == Some(teamId)
    ensures Joined(users, teamId, userId)[userId].(teamId := users[userId].teamId) == users[userId]
  {
  }

  /** After a successful create, the same name and code are taken. */
  lemma CreateTwiceConflicts(teams: seq<Team>, id: int, t: TeamCreate, creator: User, t2: TeamCreate)
    requires t2.name == t.name || t2.code == t.code
    ensures NameOrCodeTaken(teams + [NewTeam(id, t, creator)], t2)
  {
    var s := teams + [NewTeam(id, t, creator)];
    var k := IndexWhere(s, (x: Team) => x.name == t2.name || x.code == t2.code);
    assert s[|teams|].name == t.name && s[|teams|].code == t.code;
  }

  class TeamService {
    const session: Session

    constructor (session: Session)
      ensures this.session == session
    {
      this.session := session;
    }

    /**
     * `create_team`: insert the team, or roll back with 400 when its name or code is taken.
     * The request schema (`ValidTeamCreate`) runs before the service and keeps the name
     * within its `String(50)` column, so no length error of the database is modelled here.
     */
    method CreateTeam(t: TeamCreate, user: User) returns (r: Result<Team, TeamError>)
      requires session.Valid()
      modifies session`teams, session`teamSeq
      ensures session.Valid()
      ensures NameOrCodeTaken(old(session.teams), t) ==>
        r == Err(TeamCodeExists) && session.teams == old(session.teams) && session.teamSeq == old(session.teamSeq)
      ensures !NameOrCodeTaken(old(session.teams), t) ==>
        && r == Ok(NewTeam(old(session.teamSeq) + 1, t, user))
        && session.teams == old(session.teams) + [r.value] && session.teamSeq == old(session.teamSeq) + 1
    {
      if NameOrCodeTaken(session.teams, t) {
        return Err(TeamCodeExists);
      }
      var team := NewTeam(session.teamSeq + 1, t, user);
      session.teamSeq := session.teamSeq + 1;
      session.teams := session.teams + [team];
      r := Ok(team);
    }

    /** `add_user_to_team`: the three guards, then the user joins the team. */
    method AddUserToTeam(teamId: int, userId: int, currentUser: User) returns (r: Outcome<TeamError>)
      requires session.Valid()
      modifies session`users
      ensures session.Valid()
      ensures var f := AddFailure(old(session.teams), old(session.users), teamId, userId, currentUser);
        && (f.Some? ==> r == Fail(f.value) && session.users == old(session.users))
        && (f.None? ==> r == Pass && userId in old(session.users) && session.users == Joined(old(session.users), teamId, userId))
    {
      var team := TeamById(session.teams, teamId);
      if team.None? || userId !in session.users {
        return Fail(TeamOrUserNotFound);
      }
      var user := session.users[userId];
      if team.value.adminId != currentUser.id {
        return Fail(NotTeamAdmin);
      }
      if user.teamId.Some? {
        return Fail(UserAlreadyInTeam);
      }
      JoinedChangesOnlyTeamOfUser(session.users, teamId, userId, userId);
      session.users := Joined(session.users, teamId, userId);
      r := Pass;
    }
  }
}
