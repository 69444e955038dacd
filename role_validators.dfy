/** `ensure_user_role`: the role check and the choice of the error it raises. */
module RoleValidators {
  import opened Wrappers
  import opened Domain
  import opened RoleExceptions

  /** `required_roles: UserRole | list[UserRole]`. */
  datatype RequiredRoles = One(role: UserRole) | Many(roles: seq<UserRole>)

  /** A single role is treated as a one-element list. */
  function Normalize(req: RequiredRoles): (r: seq<UserRole>)
    ensures req.One? ==> r == [req.role]
    ensures req.Many? ==> r == req.roles
  {
    match req
    case One(role) => [role]
    case Many(roles) => roles
  }

  /** `repr` of a member of the string enum, as `str(list)` prints it. */
  function RoleRepr(role: UserRole): string {
    match role
    case RoleUser => "<UserRole.USER: 'user'>"
    case RoleManager => "<UserRole.MANAGER: 'manager'>"
    case RoleAdmin => "<UserRole.ADMIN: 'admin'>"
  }

  function JoinReprs(roles: seq<UserRole>): string {
    if roles == [] then ""
    else if |roles| == 1 then RoleRepr(roles[0])
    else RoleRepr(roles[0]) + ", " + JoinReprs(roles[1..])
  }

  /** `str(required_roles)`. */
  function ListRepr(roles: seq<UserRole>): string {
    "[" + JoinReprs(roles) + "]"
  }

  /**
   * `ensure_user_role`: passes iff the user's role is required; otherwise the
   * error names the most privileged required role (admin, then manager, then
   * user), and only a list with none of them gets the generic error.
   */
  function EnsureUserRole(user: User, req: RequiredRoles, errorMessage: string := DEFAULT_MESSAGE): (r: Outcome<RoleError>)
    ensures r.Pass? <==> user.role in Normalize(req)
    ensures r.Fail? && RoleAdmin in Normalize(req) ==> r.error == AdminRequiredError(userId := Some(user.id))
    ensures r.Fail? && RoleAdmin !in Normalize(req) && RoleManager in Normalize(req) ==>
      r.error == ManagerRequiredError(userId := Some(user.id))
    ensures r.Fail? && RoleAdmin !in Normalize(req) && RoleManager !in Normalize(req) && RoleUser in Normalize(req) ==>
      r.error == UserRoleRequiredError(userId := Some(user.id))
    ensures r.Fail? && r.error.kind == Generic ==>
      r.error == NewRoleError(errorMessage, Some(ListRepr(Normalize(req))), Some(user.id))
  {
    var roles := Normalize(req);
    if user.role in roles then Pass
    else if RoleAdmin in roles then Fail(AdminRequiredError(userId := Some(user.id)))
    else if RoleManager in roles then Fail(ManagerRequiredError(userId := Some(user.id)))
    else if RoleUser in roles then Fail(UserRoleRequiredError(userId := Some(user.id)))
    else Fail(NewRoleError(errorMessage, Some(ListRepr(roles)), Some(user.id)))
  }

  /** A single role behaves as the list holding just it. */
  lemma SingleRoleIsSingletonList(user: User, role: UserRole, errorMessage: string)
    ensures EnsureUserRole(user, One(role), errorMessage) == EnsureUserRole(user, Many([role]), errorMessage)
  {
  }

  /**
   * The generic error is raised exactly for the empty list, and then it
   * carries the caller's message and the role text "[]".
   */
  lemma {:induction false} GenericOnlyForEmptyList(user: User, req: RequiredRoles, errorMessage: string)
    ensures var r := EnsureUserRole(user, req, errorMessage);
      (r.Fail? && r.error.kind == Generic) <==> Normalize(req) == []
    ensures Normalize(req) == [] ==> EnsureUserRole(user, req, errorMessage) == Fail(NewRoleError(errorMessage, Some("[]"), Some(user.id)))
  {
    var roles := Normalize(req);
    if roles != [] {
      var x := roles[0];
      assert x in roles;
      assert x == RoleAdmin || x == RoleManager || x == RoleUser;
    } else {
      assert ListRepr(roles) == "[]";
    }
  }

  /** A specific error names a required role that the user does not have. */
  lemma ErrorNamesMissingRole(user: User, req: RequiredRoles, errorMessage: string)
    requires EnsureUserRole(user, req, errorMessage).Fail?
    requires Normalize(req) != []
    ensures var e := EnsureUserRole(user, req, errorMessage).error;
      exists x :: x in Normalize(req) && x != user.role && e.role == Some(x.Value())
  {
    var roles := Normalize(req);
    if RoleAdmin in roles {
      assert RoleAdmin.Value() == "admin";
    } else if RoleManager in roles {
      assert RoleManager.Value() == "manager";
    } else {
      GenericOnlyForEmptyList(user, req, errorMessage);
      var x := roles[0];
      assert x in roles;
      assert RoleUser in roles;
      assert RoleUser.Value() == "user";
    }
  }

  /** A plain user is refused a manager-or-admin check with the admin error. */
  lemma AdminErrorWins(user: User)
    requires user.role == RoleUser
    ensures EnsureUserRole(user, Many([RoleManager, RoleAdmin])) == Fail(AdminRequiredError(userId := Some(user.id)))
  {
    assert RoleAdmin in [RoleManager, RoleAdmin];
  }
}
