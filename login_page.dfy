/**
 * The login page (app/page.js): on mount it forwards an already logged-in
 * admin or CSR to their dashboard; on submit it posts the credentials,
 * caches the token, user id and a role tag, and follows the server's
 * redirect, or shows the server's message.
 */
module LoginPage {
  import opened Wrappers
  import opened Text
  import opened AuthToken
  import LoginRoute
  import Models
  import Session

  /** `data.isAdmin ? 'admin' : (data.isCSR ? 'csr' : 'user')`. */
  function RoleTag(isAdmin: bool, isCSR: bool): (tag: string)
    ensures tag == "admin" <==> isAdmin
    ensures tag == "csr" <==> !isAdmin && isCSR
    ensures tag == "user" <==> !isAdmin && !isCSR
  {
    if isAdmin then "admin" else if isCSR then "csr" else "user"
  }

  const DefaultLoginError := "Invalid username or password"

  /** The JSON body of `/api/login` as the page reads it. */
  datatype LoginData = LoginData(
    success: bool, token: string, userId: string, redirect: string,
    isAdmin: bool, isCSR: bool, message: Option<string>)

  /** What `fetch` and `res.json()` produce: an exception, or a status flag and a body. */
  datatype LoginReply = Threw | Answered(ok: bool, data: LoginData)

  predicate Succeeded(reply: LoginReply) {
    reply.Answered? && reply.ok && reply.data.success
  }

  /** Where the mount effect sends a visitor, if anywhere. */
  function ReturningTarget(s: Storage): (target: Option<string>)
    ensures target.Some? ==> Authenticated(s)
    ensures target == Some("/admin/dashboard") <==> Authenticated(s) && HasAdminRole(s)
    ensures target == Some("/csr/csr-dashboard") <==> Authenticated(s) && HasCsrRole(s)
  {
    if !Authenticated(s) then None
    else if HasAdminRole(s) then Some("/admin/dashboard")
    else if HasCsrRole(s) then Some("/csr/csr-dashboard")
    else None
  }

  /** The cache after `handleLogin`: written only on success. */
  function CacheAfter(s: Storage, reply: LoginReply): Storage {
    if Succeeded(reply)
    then Stored(s, reply.data.token, reply.data.userId, RoleTag(reply.data.isAdmin, reply.data.isCSR))
    else s
  }

  /** The message shown after a failed attempt: the server's, or the default. */
  function ErrorAfter(previous: string, reply: LoginReply): (e: string)
    ensures reply.Answered? && !Succeeded(reply) ==> e != "" && (Truthy(reply.data.message) ==> e == reply.data.message.value)
    ensures !(reply.Answered? && !Succeeded(reply)) ==> e == previous
  {
    if reply.Answered? && !Succeeded(reply)
    then (if Truthy(reply.data.message) then reply.data.message.value else DefaultLoginError)
    else previous
  }

  class Page {
    var loading: bool
    var loginError: string
    const session: LocalStorageSession

    constructor (session: LocalStorageSession)
      ensures this.session == session && !loading && loginError == ""
    {
      this.session := session;
      loading := false;
      loginError := "";
    }

    /** The mount effect: an admin or CSR who is still logged in goes to their dashboard. */
    method RedirectIfLoggedIn() returns (navigation: Option<string>)
      ensures navigation == ReturningTarget(session.State())
    {
      navigation := None;
      var authenticated := session.IsAuthenticated();
      if authenticated {
        var admin := session.IsAdmin();
        if admin {
          navigation := Some("/admin/dashboard");
        } else {
          var csr := session.IsCSR();
          if csr {
            navigation := Some("/csr/csr-dashboard");
          }
        }
      }
    }

    /** `handleLogin`, given what the request produced. */
    method HandleLogin(reply: LoginReply) returns (navigation: Option<string>, alerted: bool)
      modifies this, session
      ensures !loading
      ensures session.State() == CacheAfter(old(session.State()), reply)
      ensures loginError == ErrorAfter(old(loginError), reply)
      ensures navigation == (if Succeeded(reply) then Some(reply.data.redirect) else None)
      ensures alerted <==> reply.Threw?
    {
      loading := true;
      navigation := None;
      alerted := false;
      if reply.Threw? {
        alerted := true;
      } else if reply.ok && reply.data.success {
        var userRole := RoleTag(reply.data.isAdmin, reply.data.isCSR);
        session.SetAuthToken(reply.data.token, reply.data.userId, userRole);
        navigation := Some(reply.data.redirect);
      } else {
        loginError := if Truthy(reply.data.message) then reply.data.message.value else DefaultLoginError;
      }
      loading := false;
    }
  }

  /** How a response of the login route reaches the page. */
  function Delivered(r: LoginRoute.LoginResponse): LoginReply {
    match r
    case Failed(_, _, message) => Answered(false, LoginData(false, "", "", "", false, false, Some(message)))
    case LoggedIn(token, userId, redirect, isAdmin, isCSR, message, _) =>
      Answered(true, LoginData(true, token, userId, redirect, isAdmin, isCSR, Some(message)))
  }

  /**
   * After a successful login of an admin or CSR, reopening the login page
   * forwards the user to the very dashboard the server redirected to.
   */
  lemma ReturningUserReachesSameDashboard(s: Storage, username: Option<string>, password: Option<string>,
                                          admins: seq<Models.AdminRecord>, csrs: seq<Models.CsrRecord>,
                                          compare: (string, string) -> bool, sign: Session.TokenRequest -> string,
                                          production: bool)
    requires s.hasWindow
    requires var r := LoginRoute.Login(username, password, admins, csrs, compare, sign, production);
             r.LoggedIn? && r.token != "" && r.redirect != "/"
    ensures var r := LoginRoute.Login(username, password, admins, csrs, compare, sign, production);
            ReturningTarget(CacheAfter(s, Delivered(r))) == Some(r.redirect)
  {
  }

  /** A failed login leaves the cache untouched and shows the route's own message. */
  lemma FailedLoginShowsRouteMessage(s: Storage, previous: string, username: Option<string>, password: Option<string>,
                                     admins: seq<Models.AdminRecord>, csrs: seq<Models.CsrRecord>,
                                     compare: (string, string) -> bool, sign: Session.TokenRequest -> string,
                                     production: bool)
    requires LoginRoute.Login(username, password, admins, csrs, compare, sign, production).Failed?
    ensures var r := LoginRoute.Login(username, password, admins, csrs, compare, sign, production);
            && CacheAfter(s, Delivered(r)) == s
            && ErrorAfter(previous, Delivered(r)) == r.message
  {
  }
}
