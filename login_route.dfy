/**
 * `POST /api/login` (app/api/login/route.js): checks the two fields, looks
 * the username up in the Admin collection and then in the CSR collection,
 * compares the password against the stored hash, resolves the role, signs
 * the claims and sets the `token` cookie.
 *
 * bcrypt's comparison and the JWT signer are the oracles `compare` and
 * `sign`; the collections are sequences searched in order like `findOne`.
 */
module LoginRoute {
  import opened Wrappers
  import opened Text
  import opened Session
  import opened Models

  /** The user login found, whichever collection it came from. */
  datatype Principal = Principal(
    id: string,
    username: string,
    password: string,
    isAdmin: bool,
    isCSR: bool,               // defined on both schemas (default false / true)
    isActive: Option<bool>,    // CSR documents only
    isLeadRole: Option<bool>)  // CSR documents only

  function FromAdmin(a: AdminRecord): Principal {
    Principal(a.id, a.username, a.password, a.isAdmin, a.isCSR, None, None)
  }

  function FromCsr(c: CsrRecord): Principal {
    Principal(c.id, c.username, c.password, c.isAdmin, c.isCSR, Some(c.isActive), Some(c.isLeadRole))
  }

  datatype Role = AdminRole | CsrRole | NoRole

  /**
   * `user.isAdmin`, else `user.isCSR || (user.isActive && user.isCSR !== undefined)`.
   * `isCSR` always has a value (both schemas give it a default), so the
   * second test reduces to `isActive` being true.
   */
  function ResolveRole(p: Principal): Role {
    if p.isAdmin then AdminRole
    else if p.isCSR || p.isActive == Some(true) then CsrRole
    else NoRole
  }

  function RedirectFor(role: Role): string {
    match role
    case AdminRole => "/admin/dashboard"
    case CsrRole => "/csr/csr-dashboard"
    case NoRole => "/"
  }

  /** The Admin collection first; the CSR collection only when no admin matches. */
  function Lookup(username: string, admins: seq<AdminRecord>, csrs: seq<CsrRecord>): (r: Option<Principal>)
    ensures r.Some? ==> r.value.username == username
    ensures (exists a :: a in admins && a.username == username) ==> r.Some? && r.value.isActive.None?
    ensures r.None? <==> ((forall a :: a in admins ==> a.username != username)
                          && (forall c :: c in csrs ==> c.username != username))
    // the first admin with the username, in collection order
    ensures (exists a :: a in admins && a.username == username) ==>
              exists i :: 0 <= i < |admins| && admins[i].username == username
                          && (forall j :: 0 <= j < i ==> admins[j].username != username)
                          && r == Some(FromAdmin(admins[i]))
    // otherwise the first CSR with the username
    ensures (forall a :: a in admins ==> a.username != username) && r.Some? ==>
              exists i :: 0 <= i < |csrs| && csrs[i].username == username
                          && (forall j :: 0 <= j < i ==> csrs[j].username != username)
                          && r == Some(FromCsr(csrs[i]))
  {
    var byName := (a: AdminRecord) => a.username == username;
    var csrByName := (c: CsrRecord) => c.username == username;
    match FindFirst(admins, byName)
    case Some(a) =>
      FindFirstIsFirst(admins, byName);
      Some(FromAdmin(a))
    case None =>
      match FindFirst(csrs, csrByName)
      case Some(c) =>
        FindFirstIsFirst(csrs, csrByName);
        Some(FromCsr(c))
      case None => None
  }

  /** The claims signed for a user: `isActive: user.isActive || true`, `isLeadRole: user.isLeadRole || false`. */
  function ClaimsFor(p: Principal): (c: Claims)
    ensures c.id == p.id && c.username == p.username
    ensures c.isAdmin <==> p.isAdmin
    ensures c.isCSR <==> !p.isAdmin && (p.isCSR || p.isActive == Some(true))
    ensures c.isActive
    ensures !(c.isAdmin && c.isCSR)
    ensures c.isLeadRole <==> p.isLeadRole == Some(true)
  {
    var role := ResolveRole(p);
    Claims(p.id, p.username, role == AdminRole, role == CsrRole, true, p.isLeadRole == Some(true))
  }

  datatype LoginResponse =
    | Failed(status: nat, field: Option<string>, message: string)
    | LoggedIn(token: string, userId: string, redirect: string, isAdmin: bool, isCSR: bool,
               message: string, cookie: Cookie)

  /** The handler. */
  function Login(username: Option<string>, password: Option<string>,
                 admins: seq<AdminRecord>, csrs: seq<CsrRecord>,
                 compare: (string, string) -> bool, sign: TokenRequest -> string,
                 production: bool): (r: LoginResponse)
    // a missing or empty field is answered 400 before any lookup
    ensures !(Truthy(username) && Truthy(password)) ==> r == Failed(400, None, "Please fill in all fields.")
    ensures Truthy(username) && Truthy(password) ==>
      var found := Lookup(username.value, admins, csrs);
      && (found.None? <==> r.Failed? && r.field == Some("username"))
      && (found.None? ==> r.status == 401)
      && (r.LoggedIn? <==> found.Some? && compare(password.value, found.value.password))
      && (found.Some? && !compare(password.value, found.value.password) ==>
            r == Failed(401, Some("password"), "Invalid password."))
      && (r.LoggedIn? ==> r.userId == found.value.id && r.isAdmin == found.value.isAdmin)
      // a non-admin is a CSR when flagged so, or when its `isActive` is true
      && (r.LoggedIn? ==>
            r.isCSR == (!found.value.isAdmin && (found.value.isCSR || found.value.isActive == Some(true))))
      && (r.LoggedIn? ==> r.token == sign(TokenRequest(ClaimsFor(found.value), TokenLifetimeSeconds)))
    // role flags are exclusive and the redirect follows them
    ensures r.LoggedIn? ==> !(r.isAdmin && r.isCSR)
    ensures r.LoggedIn? ==> (r.redirect == "/admin/dashboard" <==> r.isAdmin)
    ensures r.LoggedIn? ==> (r.redirect == "/csr/csr-dashboard" <==> r.isCSR)
    ensures r.LoggedIn? ==> (r.redirect == "/" <==> !r.isAdmin && !r.isCSR)
    // the cookie carries the token for a week; the token itself is valid for a day
    ensures r.LoggedIn? ==>
      && r.cookie.name == CookieName && r.cookie.value == r.token
      && r.cookie.httpOnly && r.cookie.sameSite == Strict && r.cookie.path == "/"
      && (r.cookie.secure <==> production) && r.cookie.maxAge == 604800
    ensures r.LoggedIn? ==> exists c: Claims ::
      c.isActive && c.isAdmin == r.isAdmin && c.isCSR == r.isCSR
      && r.token == sign(TokenRequest(c, 86400))
  {
    if !Truthy(username) || !Truthy(password) then Failed(400, None, "Please fill in all fields.")
    else match Lookup(username.value, admins, csrs)
      case None => Failed(401, Some("username"), "User not found.")
      case Some(user) =>
        if !compare(password.value, user.password) then Failed(401, Some("password"), "Invalid password.")
        else
          var role := ResolveRole(user);
          var claims := ClaimsFor(user);
          var token := sign(TokenRequest(claims, TokenLifetimeSeconds));
          LoggedIn(token, user.id, RedirectFor(role), role == AdminRole, role == CsrRole, "Login successful!",
                   Cookie(CookieName, token, true, production, Strict, "/", CookieMaxAgeSeconds))
  }

  /** Which collection holds the CSRs plays no part while an admin has the username. */
  lemma AdminShadowsCsr(username: string, password: Option<string>, admins: seq<AdminRecord>,
                        csrs1: seq<CsrRecord>, csrs2: seq<CsrRecord>,
                        compare: (string, string) -> bool, sign: TokenRequest -> string, production: bool)
    requires exists a :: a in admins && a.username == username
    ensures Login(Some(username), password, admins, csrs1, compare, sign, production)
         == Login(Some(username), password, admins, csrs2, compare, sign, production)
  {
    var a :| a in admins && a.username == username;
    var f := (x: AdminRecord) => x.username == username;
    assert FindFirst(admins, f).Some?;
  }

  /** Missing fields are rejected whatever the collections hold. */
  lemma MissingFieldsSkipLookup(username: Option<string>, password: Option<string>,
                                a1: seq<AdminRecord>, c1: seq<CsrRecord>, a2: seq<AdminRecord>, c2: seq<CsrRecord>,
                                compare: (string, string) -> bool, sign: TokenRequest -> string, production: bool)
    requires !Truthy(username) || !Truthy(password)
    ensures Login(username, password, a1, c1, compare, sign, production)
         == Login(username, password, a2, c2, compare, sign, production)
  {
  }

  /**
   * An inactive CSR still logs in as a CSR: `isActive` does not gate
   * login, and the token says `isActive: true` regardless.
   */
  lemma InactiveCsrStillLogsIn(c: CsrRecord, password: string, compare: (string, string) -> bool,
                               sign: TokenRequest -> string, production: bool)
    requires c.isCSR && !c.isAdmin && !c.isActive && c.username != "" && password != ""
    requires compare(password, c.password)
    ensures var r := Login(Some(c.username), Some(password), [], [c], compare, sign, production);
            r.LoggedIn? && r.isCSR && r.redirect == "/csr/csr-dashboard"
            && r.token == sign(TokenRequest(Claims(c.id, c.username, false, true, true, c.isLeadRole), 86400))
  {
    var f := (x: CsrRecord) => x.username == c.username;
    assert FindFirst([c], f) == Some(c);
  }
}
