/** Role changes (`UserService.update_user_role`). */
module Users {
  import opened Wrappers
  import opened Domain
  import opened Store

  datatype UserError =
    | UserNotFound         // 404 "User not found"
    | CannotChangeOwnRole  // 400, the caller is the target
  {
    function Status(): int {
      match this
      case UserNotFound => 404
      case CannotChangeOwnRole => 400
    }
  }

  /** The guards of `update_user_role`, in order: the target must exist, then must not be the caller. */
  function RoleChangeFailure(users: map<int, User>, userId: int, currentUser: User): (r: Option<UserError>)
    ensures r == Some(UserNotFound) <==> userId !in users
    ensures r == Some(CannotChangeOwnRole) <==> userId in users && users[userId].id == currentUser.id
    ensures r.None? <==> userId in users && users[userId].id != currentUser.id
  {
    if userId !in users then Some(UserNotFound)
    else if users[userId].id == currentUser.id then Some(CannotChangeOwnRole)
    else None
  }

  /** The users table after `user.role = role_data.role`. */
  function WithRole(users: map<int, User>, userId: int, role: UserRole): (r: map<int, User>)
    requires userId in users
    ensures r.Keys == users.Keys
    ensures r[userId].role == role && r[userId].(role := users[userId].role) == users[userId]
    ensures forall k :: k in users && k != userId ==> r[k] == users[k]
  {
    users[userId := users[userId].(role := role)]
  }

  /** A granted change keeps the table keyed and leaves the caller's own row, role included, as it was. */
  lemma CallerRoleUnchanged(users: map<int, User>, userId: int, currentUser: User, role: UserRole)
    requires UsersKeyed(users) && RoleChangeFailure(users, userId, currentUser).None?
    ensures UsersKeyed(WithRole(users, userId, role))
    ensures currentUser.id in users ==> WithRole(users, userId, role)[currentUser.id] == users[currentUser.id]
  {
  }

  /** Setting a role twice is setting it once; the second change is granted again. */
  lemma WithRoleIdempotent(users: map<int, User>, userId: int, currentUser: User, role: UserRole)
    requires RoleChangeFailure(users, userId, currentUser).None?
    ensures RoleChangeFailure(WithRole(users, userId, role), userId, currentUser).None?
    ensures WithRole(WithRole(users, userId, role), userId, role) == WithRole(users, userId, role)
  {
  }

  class UserService {
    const session: Session

    constructor (session: Session)
      ensures this.session == session
    {
      this.session := session;
    }

    /** `update_user_role`: 404, then 400, then the target's role is replaced. */
    method UpdateUserRole(userId: int, currentUser: User, role: UserRole) returns (r: Outcome<UserError>)
      requires session.Valid()
      modifies session`users
      ensures session.Valid()
      ensures var f := RoleChangeFailure(old(session.users), userId, currentUser);
        && (f.Some? ==> r == Fail(f.value) && session.users == old(session.users))
        && (f.None? ==> r == Pass && userId in old(session.users) && session.users == WithRole(old(session.users), userId, role))
    {
      if userId !in session.users {
        return Fail(UserNotFound);
      }
      var user := session.users[userId];
      if user.id == currentUser.id {
        return Fail(CannotChangeOwnRole);
      }
      session.users := WithRole(session.users, userId, role);
      r := Pass;
    }
  }
}
