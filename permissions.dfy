/**
 * The permission guards: each compares one pair of values and raises a
 * service error when the comparison says so.
 */
module Permissions {
  import opened Wrappers
  import opened Domain
  import Users
  import Tasks

  datatype PermissionError =
    | TaskNotTeamError
    | TaskPermissionError
    | TeamAccessDeniedError
    | UserNotInTeamError
    | TeamAdminRequiredError(teamName: string)
    | TeamAdminError
    | UserAlreadyInTeamError(userId: int)  // raised with the user's team id in this slot
    | CannotAddTeamAdminError
    | CannotRemoveTeamAdminError
    | UserNotFoundError
    | UserCannotChangeRole
    | AttributeError                       // `user.id` read on `None`

  /** `ensure_user_has_team`: `not user.team_id`. */
  function EnsureUserHasTeam(user: User): (r: Outcome<PermissionError>)
    ensures r.Pass? <==> user.teamId.Some? && user.teamId.value != 0
    ensures r.Fail? ==> r.error == TaskNotTeamError
  {
    if !HasTeam(user) then Fail(TaskNotTeamError) else Pass
  }

  /** `check_task_owner`. */
  function CheckTaskOwner(user: User, task: Task): (r: Outcome<PermissionError>)
    ensures r.Pass? <==> task.creatorId == user.id
    ensures r.Fail? ==> r.error == TaskPermissionError
  {
    if task.creatorId != user.id then Fail(TaskPermissionError) else Pass
  }

  /** `validate_team_access`: a user without a team never matches. */
  function ValidateTeamAccess(user: User, team: Team): (r: Outcome<PermissionError>)
    ensures r.Pass? <==> user.teamId == Some(team.id)
    ensures r.Fail? ==> r.error == TeamAccessDeniedError
  {
    if user.teamId != Some(team.id) then Fail(TeamAccessDeniedError) else Pass
  }

  /** `ensure_user_in_team`. */
  function EnsureUserInTeam(user: User, team: Team): (r: Outcome<PermissionError>)
    ensures r.Pass? <==> user.teamId == Some(team.id)
    ensures r.Fail? ==> r.error == UserNotInTeamError
  {
    if user.teamId != Some(team.id) then Fail(UserNotInTeamError) else Pass
  }

  /** `check_team_admin`: the error carries the team's name. */
  function CheckTeamAdmin(user: User, team: Team): (r: Outcome<PermissionError>)
    ensures r.Pass? <==> team.adminId == user.id
    ensures r.Fail? ==> r.error == TeamAdminRequiredError(team.name)
  {
    if team.adminId != user.id then Fail(TeamAdminRequiredError(team.name)) else Pass
  }

  /** `ensure_user_is_admin`. */
  function EnsureUserIsAdmin(user: User): (r: Outcome<PermissionError>)
    ensures r.Pass? <==> user.role == RoleAdmin
    ensures r.Fail? ==> r.error == TeamAdminError
  {
    if user.role != RoleAdmin then Fail(TeamAdminError) else Pass
  }

  /** `ensure_user_not_in_team`: a truthy `team_id` raises, carrying that id. */
  function EnsureUserNotInTeam(user: User): (r: Outcome<PermissionError>)
    ensures r.Pass? <==> user.teamId.None? || user.teamId.value == 0
    ensures r.Fail? ==> user.teamId.Some? && r.error == UserAlreadyInTeamError(user.teamId.value)
  {
    if HasTeam(user) then Fail(UserAlreadyInTeamError(user.teamId.value)) else Pass
  }

  /** `disallow_admin_assignment`: the string enum compares equal to "admin" only as `ADMIN`. */
  function DisallowAdminAssignment(role: UserRole): (r: Outcome<PermissionError>)
    ensures r.Pass? <==> role.Value() != "admin"
    ensures r.Fail? ==> r.error == CannotAddTeamAdminError
  {
    if role.Value() == "admin" then Fail(CannotAddTeamAdminError) else Pass
  }

  /** `remove_team_admin`. */
  function RemoveTeamAdmin(user: User, team: Team): (r: Outcome<PermissionError>)
    ensures r.Pass? <==> user.id != team.adminId
    ensures r.Fail? ==> r.error == CannotRemoveTeamAdminError
  {
    if user.id == team.adminId then Fail(CannotRemoveTeamAdminError) else Pass
  }

  /** `ensure_user_exists`: a loaded model object is always truthy. */
  function EnsureUserExists(user: Option<User>): (r: Outcome<PermissionError>)
    ensures r.Pass? <==> user.Some?
    ensures r.Fail? ==> r.error == UserNotFoundError
  {
    if user.None? then Fail(UserNotFoundError) else Pass
  }

  /** `disallow_self_role_change`: reads `user.id` without a `None` check. */
  function DisallowSelfRoleChange(user: Option<User>, currentUser: User): (r: Outcome<PermissionError>)
    ensures r.Pass? <==> user.Some? && user.value.id != currentUser.id
    ensures r == Fail(AttributeError) <==> user.None?
    ensures r.Fail? && user.Some? ==> r.error == UserCannotChangeRole
  {
    if user.None? then Fail(AttributeError)
    else if user.value.id == currentUser.id then Fail(UserCannotChangeRole)
    else Pass
  }

  /** Exactly one of the "has a team" and "has no team" guards passes. */
  lemma TeamGuardsComplementary(user: User)
    ensures EnsureUserHasTeam(user).Pass? <==> EnsureUserNotInTeam(user).Fail?
  {
  }

  /** Exactly one of the "is the team's admin" and "is not the team's admin" guards passes. */
  lemma AdminGuardsComplementary(user: User, team: Team)
    ensures CheckTeamAdmin(user, team).Pass? <==> RemoveTeamAdmin(user, team).Fail?
  {
  }

  /** The access and membership guards accept the same users; only their errors differ. */
  lemma AccessIsMembership(user: User, team: Team)
    ensures ValidateTeamAccess(user, team).Pass? <==> EnsureUserInTeam(user, team).Pass?
    ensures ValidateTeamAccess(user, team) != EnsureUserInTeam(user, team) <==> ValidateTeamAccess(user, team).Fail?
  {
  }

  /** The admin-role guard and the admin-assignment guard refuse the same role. */
  lemma AdminRoleGuards(user: User)
    ensures EnsureUserIsAdmin(user).Pass? <==> DisallowAdminAssignment(user.role).Fail?
  {
  }

  /** Once the user is known to exist, the self-change guard cannot fail on `None`. */
  lemma ExistsThenNoAttributeError(user: Option<User>, currentUser: User)
    requires EnsureUserExists(user).Pass?
    ensures DisallowSelfRoleChange(user, currentUser) != Fail(AttributeError)
  {
  }

  /**
   * The two user guards, run in order on the loaded target, accept exactly
   * the role changes `update_user_role` grants.
   */
  lemma RoleChangeGuardsAgree(users: map<int, User>, userId: int, currentUser: User)
    ensures var target := if userId in users then Some(users[userId]) else None;
      (EnsureUserExists(target).Pass? && DisallowSelfRoleChange(target, currentUser).Pass?)
      <==> Users.RoleChangeFailure(users, userId, currentUser).None?
  {
  }

  /** `create_task` refuses a user exactly as `ensure_user_has_team` does. */
  lemma TaskGuardAgrees(users: map<int, User>, teams: seq<Team>, input: Tasks.TaskCreate, user: User)
    ensures Tasks.CreateFailure(users, teams, input, user) == Some(Tasks.TaskNotTeam) <==> EnsureUserHasTeam(user).Fail?
  {
  }
}
