/**
 * `GET /api/logout` (app/api/logout/route.js): answers success and
 * overwrites the `token` cookie with an empty value that expires at once
 * (`Max-Age=0`, section 4.1.2.2 of RFC 6265). Nothing in the request is read.
 */
module LogoutRoute {
  import opened Wrappers
  import opened Text
  import opened Session
  import Middleware
  import LoginRoute
  import Models

  datatype LogoutResponse = LogoutResponse(success: bool, message: string, cookie: Cookie)

  /** The handler; `production` is `process.env.NODE_ENV === 'production'`. */
  function Logout(production: bool): (r: LogoutResponse)
    ensures r.success
    ensures r.cookie.name == CookieName && r.cookie.value == "" && r.cookie.maxAge == 0
    ensures r.cookie.httpOnly && r.cookie.sameSite == Strict && r.cookie.path == "/"
    ensures r.cookie.secure <==> production
  {
    LogoutResponse(true, "Logged out successfully",
                   Cookie(CookieName, "", true, production, Strict, "/", 0))
  }

  /** The clearing cookie replaces the login cookie: same name, path and flags. */
  lemma LogoutCookieMatchesLogin(username: Option<string>, password: Option<string>,
                                 admins: seq<Models.AdminRecord>, csrs: seq<Models.CsrRecord>,
                                 compare: (string, string) -> bool, sign: TokenRequest -> string,
                                 production: bool)
    requires LoginRoute.Login(username, password, admins, csrs, compare, sign, production).LoggedIn?
    ensures SameAttributes(LoginRoute.Login(username, password, admins, csrs, compare, sign, production).cookie,
                           Logout(production).cookie)
  {
  }

  /**
   * After logout the browser sends the emptied cookie, so a later request to
   * a protected page without a bearer header is redirected to `/`,
   * whatever the verifier would have said about the old token.
   */
  lemma LoggedOutRequestIsRedirected(path: string, production: bool, verify: string -> Option<Claims>)
    requires Middleware.MatcherApplies(path)
    ensures var jar := Logout(production).cookie;
            Middleware.Gate(Middleware.Request(path, Some(jar.value), None), verify) == Middleware.Redirect("/")
  {
    Middleware.MatchedPathsAreProtected(path);
  }
}
