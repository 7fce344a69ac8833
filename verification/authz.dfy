/** The `[RoleAuthorization(...)]` filter
    (Infrastructure/RoleAuthorizationAttribute.cs): anonymous endpoints pass,
    a signed-out user is sent to the login page, and a signed-in user passes
    only when holding one of the listed roles. */
module Authorization {

  /** What the filter leaves in `context.Result`: nothing (the request goes
      on), a redirect to Account/Login, or a `ForbidResult`. */
  datatype Outcome = Pass | RedirectToLogin(returnUrl: string) | Forbid

  /** The signed-in state and role claims of the request's user. */
  datatype Principal = Principal(authenticated: bool, roles: set<string>)

  /** The `foreach` over the listed roles, stopping at the first one the user
      is in. */
  function HoldsAnyRole(user: Principal, roles: seq<string>): (b: bool)
    ensures b <==> exists i :: 0 <= i < |roles| && roles[i] in user.roles
  {
    if |roles| == 0 then false
    else if roles[0] in user.roles then true
    else
      var rest := HoldsAnyRole(user, roles[1..]);
      assert forall i :: 1 <= i < |roles| ==> roles[i] == roles[1..][i - 1];
      rest
  }

  /** `OnAuthorizationAsync` for an endpoint listing `roles`, requested at `path`. */
  function Authorize(allowAnonymous: bool, user: Principal, roles: seq<string>, path: string): (r: Outcome)
    ensures allowAnonymous ==> r == Pass
    ensures !allowAnonymous && !user.authenticated ==> r == RedirectToLogin(path)
    ensures !allowAnonymous && user.authenticated ==>
      (r == Pass <==> exists i :: 0 <= i < |roles| && roles[i] in user.roles)
    ensures !allowAnonymous && user.authenticated ==> r == Pass || r == Forbid
  {
    if allowAnonymous then Pass
    else if !user.authenticated then RedirectToLogin(path)
    else if HoldsAnyRole(user, roles) then Pass
    else Forbid
  }

  /** An endpoint that lists no role forbids every signed-in user. */
  lemma EmptyRoleListForbids(user: Principal, path: string)
    requires user.authenticated
    ensures Authorize(false, user, [], path) == Forbid
  {
  }

  /** Listing more roles never turns a pass into a refusal. */
  lemma MoreRolesNeverHurt(user: Principal, roles: seq<string>, more: seq<string>, path: string)
    requires Authorize(false, user, roles, path) == Pass
    ensures Authorize(false, user, roles + more, path) == Pass
    ensures Authorize(false, user, more + roles, path) == Pass
  {
    var i :| 0 <= i < |roles| && roles[i] in user.roles;
    assert (roles + more)[i] == roles[i];
    assert (more + roles)[|more| + i] == roles[i];
  }

  /** The order in which roles are listed, and repeats among them, do not
      matter: only the set of listed roles does. */
  lemma OnlyTheRoleSetMatters(user: Principal, a: seq<string>, b: seq<string>, path: string)
    requires forall x :: x in a <==> x in b
    ensures Authorize(false, user, a, path) == Authorize(false, user, b, path)
  {
    if HoldsAnyRole(user, a) {
      var i :| 0 <= i < |a| && a[i] in user.roles;
      assert a[i] in b;
    }
    if HoldsAnyRole(user, b) {
      var j :| 0 <= j < |b| && b[j] in user.roles;
      assert b[j] in a;
    }
  }
}
