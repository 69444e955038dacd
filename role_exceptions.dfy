/**
 * The role errors (`RoleError` and its subclasses) and their string form.
 * A subclass is a `RoleError` whose `kind` names it; the constructors only
 * store fields, so each is a function filling them in, with the defaults of
 * the Python keyword arguments.
 */
module RoleExceptions {
  import opened Wrappers

  datatype RoleErrorKind = Generic | AdminRequired | ManagerRequired | UserRoleRequired | InvalidRole

  datatype RoleError = RoleError(kind: RoleErrorKind, message: string, role: Option<string>, userId: Option<int>)

  const DEFAULT_MESSAGE: string := "User does not have required role"

  /** `RoleError(message, role, user_id)`. */
  function NewRoleError(message: string := DEFAULT_MESSAGE, role: Option<string> := None, userId: Option<int> := None): (r: RoleError)
    ensures r.kind == Generic && r.message == message && r.role == role && r.userId == userId
  {
    RoleError(Generic, message, role, userId)
  }

  /** `AdminRequiredError`: the role is fixed to "admin". */
  function AdminRequiredError(message: string := "User must be an admin", userId: Option<int> := None): (r: RoleError)
    ensures r.kind == AdminRequired && r.role == Some("admin")
    ensures r.message == message && r.userId == userId
  {
    RoleError(AdminRequired, message, Some("admin"), userId)
  }

  /** `ManagerRequiredError`: the role is fixed to "manager". */
  function ManagerRequiredError(message: string := "User must be a manager", userId: Option<int> := None): (r: RoleError)
    ensures r.kind == ManagerRequired && r.role == Some("manager")
    ensures r.message == message && r.userId == userId
  {
    RoleError(ManagerRequired, message, Some("manager"), userId)
  }

  /** `UserRoleRequiredError`: the role is fixed to "user". */
  function UserRoleRequiredError(message: string := "User must have basic user role", userId: Option<int> := None): (r: RoleError)
    ensures r.kind == UserRoleRequired && r.role == Some("user")
    ensures r.message == message && r.userId == userId
  {
    RoleError(UserRoleRequired, message, Some("user"), userId)
  }

  /** `InvalidRoleError`: keeps the role it is given. */
  function InvalidRoleError(role: string, message: string := "Invalid role specified", userId: Option<int> := None): (r: RoleError)
    ensures r.kind == InvalidRole && r.role == Some(role)
    ensures r.message == message && r.userId == userId
  {
    RoleError(InvalidRole, message, Some(role), userId)
  }

  /** Python truthiness: `None` and `""` are false. */
  predicate RoleSet(e: RoleError) {
    e.role.Some? && e.role.value != ""
  }

  /** Python truthiness: `None` and `0` are false. */
  predicate UserIdSet(e: RoleError) {
    e.userId.Some? && e.userId.value != 0
  }

  function DigitChar(d: nat): (c: char)
    requires d < 10
    ensures '0' <= c <= '9'
  {
    "0123456789"[d]
  }

  function DigitValue(c: char): int {
    c as int - '0' as int
  }

  /** The decimal numeral of `n`, most significant digit first, as `str(n)`. */
  function NatToString(n: nat): (s: string)
    ensures |s| > 0
    ensures forall i :: 0 <= i < |s| ==> '0' <= s[i] <= '9'
    ensures |s| > 1 ==> s[0] != '0'
  {
    if n < 10 then [DigitChar(n)] else NatToString(n / 10) + [DigitChar(n % 10)]
  }

  /** `str(i)` of a Python `int`: a minus sign before the numeral of a negative value. */
  function IntToString(i: int): (s: string)
    ensures |s| > 0
    ensures i < 0 <==> s[0] == '-'
  {
    if i < 0 then "-" + NatToString(-i) else NatToString(i)
  }

  /** The value of a string of decimal digits. */
  function ParseNat(s: string): int {
    if s == [] then 0 else ParseNat(s[..|s| - 1]) * 10 + DigitValue(s[|s| - 1])
  }

  /** Reading the numeral back gives the number: the id in a message is the id. */
  lemma {:induction false} NatToStringRoundTrip(n: nat)
    ensures ParseNat(NatToString(n)) == n
  {
    var s := NatToString(n);
    if n < 10 {
      assert s[..|s| - 1] == [];
    } else {
      NatToStringRoundTrip(n / 10);
      assert s[..|s| - 1] == NatToString(n / 10);
    }
  }

  /** `RoleError.__str__`. */
  function Str(e: RoleError): (r: string)
    ensures RoleSet(e) && UserIdSet(e) ==>
      r == e.message + " (User " + IntToString(e.userId.value) + ", Required role: " + e.role.value + ")"
    ensures RoleSet(e) && !UserIdSet(e) ==> r == e.message + " (Required role: " + e.role.value + ")"
    ensures !RoleSet(e) && UserIdSet(e) ==> r == e.message + " (User " + IntToString(e.userId.value) + ")"
    ensures !RoleSet(e) && !UserIdSet(e) ==> r == e.message
  {
    if RoleSet(e) && UserIdSet(e) then
      e.message + " (User " + IntToString(e.userId.value) + ", Required role: " + e.role.value + ")"
    else if RoleSet(e) then e.message + " (Required role: " + e.role.value + ")"
    else if UserIdSet(e) then e.message + " (User " + IntToString(e.userId.value) + ")"
    else e.message
  }

  /** Every form starts with the message, and it is the message alone exactly when neither detail is set. */
  lemma StrExtendsMessage(e: RoleError)
    ensures |Str(e)| >= |e.message| && Str(e)[..|e.message|] == e.message
    ensures Str(e) == e.message <==> !RoleSet(e) && !UserIdSet(e)
  {
    var s := Str(e);
    assert s[..|e.message|] == e.message;
    if RoleSet(e) || UserIdSet(e) {
      assert |s| > |e.message|;
    }
  }

  /** A role error for the user with id 7, as the admin check raises it. */
  lemma AdminRequiredExample()
    ensures Str(AdminRequiredError(userId := Some(7))) == "User must be an admin (User 7, Required role: admin)"
  {
    var e := AdminRequiredError(userId := Some(7));
    assert RoleSet(e) && UserIdSet(e);
    assert IntToString(7) == "7" by {
      assert NatToString(7) == [DigitChar(7)];
    }
    assert Str(e) == "User must be an admin" + " (User " + "7" + ", Required role: " + "admin" + ")";
  }

  /** A user id of 0 is falsy, so it is left out of the text. */
  lemma ZeroUserIdOmitted()
    ensures Str(ManagerRequiredError(userId := Some(0))) == "User must be a manager (Required role: manager)"
  {
    var e := ManagerRequiredError(userId := Some(0));
    assert RoleSet(e) && !UserIdSet(e);
    assert Str(e) == "User must be a manager" + " (Required role: " + "manager" + ")";
  }
}
