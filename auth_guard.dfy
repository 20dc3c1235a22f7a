/**
 * The client-side route guard (lib/auth.js): `useAuth(requiredRole)` reads
 * the cached token and role and sends the browser to `/` when they do not
 * fit; `withAdminAuth` and `withCsrAuth` fix the role and still render the
 * wrapped component. This guard is advisory; the request gate is the
 * security boundary.
 */
module Auth {
  import opened Wrappers
  import opened Text
  import opened AuthToken

  /** What the effect does: nothing, or `router.push(to)`. */
  datatype GuardEffect = Stay | Navigate(to: string)

  /** The effect of `useAuth(requiredRole)` over the current storage. */
  function UseAuth(s: Storage, requiredRole: Option<string>): (e: GuardEffect)
    ensures e == Stay || e == Navigate("/")
    ensures s.hasWindow && !Authenticated(s) ==> e == Navigate("/")
    ensures !Truthy(requiredRole) ==> (e == Stay <==> !s.hasWindow || Authenticated(s))
    ensures Truthy(requiredRole) && s.hasWindow ==>
              (e == Stay <==> Authenticated(s) && Role(s) == requiredRole)
  {
    if !s.hasWindow then Stay
    else
      var token := Get(s, TokenKey);
      var userRole := Get(s, RoleKey);
      if !Truthy(token) then Navigate("/")
      else if Truthy(requiredRole) && userRole != requiredRole then Navigate("/")
      else Stay
  }

  /** A protected component: it is always rendered; the guard can only navigate away. */
  datatype Guarded = Guarded(rendersComponent: bool, effect: GuardEffect)

  function WithAdminAuth(s: Storage): (g: Guarded)
    ensures g.rendersComponent
    ensures s.hasWindow ==> (g.effect == Stay <==> Authenticated(s) && HasAdminRole(s))
  {
    Guarded(true, UseAuth(s, Some("admin")))
  }

  function WithCsrAuth(s: Storage): (g: Guarded)
    ensures g.rendersComponent
    ensures s.hasWindow ==> (g.effect == Stay <==> Authenticated(s) && HasCsrRole(s))
  {
    Guarded(true, UseAuth(s, Some("csr")))
  }

  /** `withCsrAuth` wants exactly `'csr'`: a cached admin is sent away. */
  lemma CsrGuardTurnsAwayAdmin(s: Storage)
    requires s.hasWindow && HasAdminRole(s)
    ensures WithCsrAuth(s).effect == Navigate("/")
  {
  }

  /** Right after a successful login with role `r`, the guard for `r` lets the page stay. */
  lemma GuardAdmitsFreshLogin(s: Storage, token: string, userId: string, r: string)
    requires s.hasWindow && token != "" && r != ""
    ensures UseAuth(Stored(s, token, userId, r), Some(r)) == Stay
  {
  }

  /** After logout every guard navigates away, whatever role it wants. */
  lemma GuardRejectsAfterClear(s: Storage, requiredRole: Option<string>)
    requires s.hasWindow
    ensures UseAuth(Cleared(s), requiredRole) == Navigate("/")
  {
  }
}
