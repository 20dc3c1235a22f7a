/**
 * The request gate (middleware.js): for a request under `/admin` or `/csr`
 * it takes the session token from the `token` cookie or, failing that, from
 * an `Authorization: Bearer <token>` header (section 2.1 of RFC 6750),
 * verifies it, and lets the request through or redirects it to `/`.
 *
 * Signature and expiry checking (the `exp` claim, section 4.1.4 of RFC 7519)
 * is the oracle `verify`: it yields the claims of a good token and `None`
 * for anything else.
 */
module Middleware {
  import opened Wrappers
  import opened Text
  import opened Session

  /** The parts of an incoming request the gate looks at. */
  datatype Request = Request(
    pathname: string,
    cookieToken: Option<string>,    // request.cookies.get('token')?.value
    authorization: Option<string>)  // request.headers.get('Authorization')

  /** `NextResponse.next()` or `NextResponse.redirect(location)`. */
  datatype Decision = Next | Redirect(location: string)

  const BearerPrefix := "Bearer "
  const LoginPath := "/"

  /** The token carried by the `Authorization` header, if it has the bearer form. */
  function HeaderToken(authorization: Option<string>): (r: Option<string>)
    ensures r.Some? ==> authorization == Some(BearerPrefix + r.value)
    ensures r.None? ==> authorization.None? || !StartsWith(authorization.value, BearerPrefix)
  {
    if Truthy(authorization) && StartsWith(authorization.value, BearerPrefix)
    then
      assert authorization.value == BearerPrefix + authorization.value[|BearerPrefix|..];
      Some(authorization.value[|BearerPrefix|..])
    else None
  }

  /** Whatever follows `Bearer ` is taken back out unchanged. */
  lemma BearerRoundTrip(t: string)
    ensures HeaderToken(Some(BearerPrefix + t)) == Some(t)
  {
    assert (BearerPrefix + t)[..|BearerPrefix|] == BearerPrefix;
  }

  /** The prefix is matched case-sensitively. */
  lemma BearerIsCaseSensitive(t: string)
    ensures HeaderToken(Some("bearer " + t)) == None
  {
    assert ("bearer " + t)[0] == 'b';
  }

  /** `cookieToken || headerToken`. */
  function CandidateToken(req: Request): Option<string> {
    if Truthy(req.cookieToken) then req.cookieToken else HeaderToken(req.authorization)
  }

  predicate IsAdminRoute(path: string) { StartsWith(path, "/admin") }
  predicate IsCsrRoute(path: string) { StartsWith(path, "/csr") }
  predicate IsProtected(path: string) { IsAdminRoute(path) || IsCsrRoute(path) }

  /** The role each protected prefix requires of verified claims. */
  predicate RoleAdmits(path: string, c: Claims) {
    && (IsAdminRoute(path) ==> c.isAdmin)
    && (IsCsrRoute(path) ==> c.isCSR || c.isAdmin)
  }

  /** A request that carries a token the oracle accepts with claims admitting the path. */
  predicate CarriesAdmittedToken(req: Request, verify: string -> Option<Claims>) {
    var t := CandidateToken(req);
    Truthy(t) && verify(t.value).Some? && RoleAdmits(req.pathname, verify(t.value).value)
  }

  /** The body of `middleware(request)`. */
  function Decide(req: Request, verify: string -> Option<Claims>): (d: Decision)
    ensures d == Next || d == Redirect(LoginPath)
    ensures !IsProtected(req.pathname) ==> d == Next
    ensures IsProtected(req.pathname) ==> (d == Next <==> CarriesAdmittedToken(req, verify))
    ensures IsProtected(req.pathname) && !Truthy(CandidateToken(req)) ==> d == Redirect(LoginPath)
    ensures (IsProtected(req.pathname) && Truthy(CandidateToken(req))
             && verify(CandidateToken(req).value).None?) ==> d == Redirect(LoginPath)
    ensures IsAdminRoute(req.pathname) && d == Next ==>
              verify(CandidateToken(req).value).value.isAdmin
    ensures IsCsrRoute(req.pathname) && d == Next ==>
              verify(CandidateToken(req).value).value.isCSR || verify(CandidateToken(req).value).value.isAdmin
  {
    var token := CandidateToken(req);
    var isAdminRoute := IsAdminRoute(req.pathname);
    var isCsrRoute := IsCsrRoute(req.pathname);
    if !(isAdminRoute || isCsrRoute) then Next
    else if !Truthy(token) then Redirect(LoginPath)
    else match verify(token.value)
      case None => Redirect(LoginPath)
      case Some(payload) =>
        if isAdminRoute && !payload.isAdmin then Redirect(LoginPath)
        else if isCsrRoute && !payload.isCSR && !payload.isAdmin then Redirect(LoginPath)
        else Next
  }

  /** A truthy cookie token wins: the header is not consulted at all. */
  lemma CookieTakesPrecedence(path: string, cookie: string, h1: Option<string>, h2: Option<string>,
                              verify: string -> Option<Claims>)
    requires cookie != ""
    ensures Decide(Request(path, Some(cookie), h1), verify) == Decide(Request(path, Some(cookie), h2), verify)
  {
  }

  /** With no usable cookie the header token decides, exactly as if it had come in the cookie. */
  lemma HeaderAsFallback(path: string, cookie: Option<string>, t: string, verify: string -> Option<Claims>)
    requires !Truthy(cookie)
    ensures Decide(Request(path, cookie, Some(BearerPrefix + t)), verify) == Decide(Request(path, Some(t), None), verify)
  {
    BearerRoundTrip(t);
  }

  /** `config.matcher`: `/admin/:path*` and `/csr/:path*`. */
  predicate MatcherApplies(path: string) {
    path == "/admin" || StartsWith(path, "/admin/") || path == "/csr" || StartsWith(path, "/csr/")
  }

  /** What a request meets: the middleware runs only on paths the matcher names. */
  function Gate(req: Request, verify: string -> Option<Claims>): (d: Decision)
    ensures MatcherApplies(req.pathname) ==> d == Decide(req, verify)
    ensures d == Redirect(LoginPath) ==> IsProtected(req.pathname)
  {
    if MatcherApplies(req.pathname) then Decide(req, verify) else Next
  }

  /** Every path the matcher names is one the middleware protects. */
  lemma MatchedPathsAreProtected(path: string)
    requires MatcherApplies(path)
    ensures IsProtected(path)
  {
    if StartsWith(path, "/admin/") {
      assert path[..6] == "/admin/"[..6];
    }
    if StartsWith(path, "/csr/") {
      assert path[..4] == "/csr/"[..4];
    }
  }

  /** A protected page reached without any token is redirected to the login page. */
  lemma NoTokenIsRedirected(path: string, verify: string -> Option<Claims>)
    requires MatcherApplies(path)
    ensures Gate(Request(path, None, None), verify) == Redirect(LoginPath)
  {
    MatchedPathsAreProtected(path);
  }

  /** The verdict on an admin path with a token whose claims lack `isAdmin` is a redirect. */
  lemma NonAdminClaimsBarredFromAdmin(path: string, token: string, verify: string -> Option<Claims>)
    requires StartsWith(path, "/admin/") && token != ""
    requires verify(token).Some? && !verify(token).value.isAdmin
    ensures Gate(Request(path, Some(token), None), verify) == Redirect(LoginPath)
  {
    assert path[..6] == "/admin/"[..6];
  }

  /** Admin claims open every protected path. */
  lemma AdminClaimsOpenEverything(req: Request, verify: string -> Option<Claims>)
    requires Truthy(CandidateToken(req))
    requires verify(CandidateToken(req).value).Some? && verify(CandidateToken(req).value).value.isAdmin
    ensures Decide(req, verify) == Next
  {
  }
}
