/**
 * The browser-side session cache (lib/useAuthToken.js): three
 * `localStorage` keys written at login and removed at logout, and the
 * queries the page guards ask of them. Without a `window` (server-side
 * rendering) every write does nothing and every query answers false or null.
 */
module AuthToken {
  import opened Wrappers
  import opened Text

  const TokenKey := "token"
  const UserIdKey := "userId"
  const RoleKey := "userRole"

  predicate IsSessionKey(k: string) {
    k == TokenKey || k == UserIdKey || k == RoleKey
  }

  /** What `localStorage` holds, and whether there is a `window` at all. */
  datatype Storage = Storage(hasWindow: bool, items: map<string, string>)

  /** `localStorage.getItem(key)`, or null without a window. */
  function Get(s: Storage, key: string): Option<string> {
    if s.hasWindow && key in s.items then Some(s.items[key]) else None
  }

  /** `isAuthenticated()`: `!!localStorage.getItem('token')`. */
  predicate Authenticated(s: Storage) {
    Truthy(Get(s, TokenKey))
  }

  /** `getUserRole()`. */
  function Role(s: Storage): Option<string> {
    Get(s, RoleKey)
  }

  /** `isAdmin()` and `isCSR()`: the stored role compared with `===`. */
  predicate HasAdminRole(s: Storage) { Role(s) == Some("admin") }
  predicate HasCsrRole(s: Storage) { Role(s) == Some("csr") }

  /** The storage after `setAuthToken(token, userId, userRole)`. */
  function Stored(s: Storage, token: string, userId: string, userRole: string): (s': Storage)
    ensures s'.hasWindow == s.hasWindow
    ensures s.hasWindow ==>
      Get(s', TokenKey) == Some(token) && Get(s', UserIdKey) == Some(userId) && Role(s') == Some(userRole)
    ensures forall k :: !IsSessionKey(k) ==> Get(s', k) == Get(s, k)
    ensures !s.hasWindow ==> s' == s
  {
    if s.hasWindow
    then Storage(true, s.items[TokenKey := token][UserIdKey := userId][RoleKey := userRole])
    else s
  }

  /** The storage after `clearAuthToken()`. */
  function Cleared(s: Storage): (s': Storage)
    ensures s'.hasWindow == s.hasWindow
    ensures Get(s', TokenKey).None? && Get(s', UserIdKey).None? && Role(s').None?
    ensures forall k :: !IsSessionKey(k) ==> Get(s', k) == Get(s, k)
    ensures !s.hasWindow ==> s' == s
  {
    if s.hasWindow
    then Storage(true, s.items - {TokenKey, UserIdKey, RoleKey})
    else s
  }

  /** After a set, the queries give back what was written. */
  lemma SetThenQuery(s: Storage, token: string, userId: string, userRole: string)
    requires s.hasWindow
    ensures var s' := Stored(s, token, userId, userRole);
            && Get(s', TokenKey) == Some(token)
            && Role(s') == Some(userRole)
            && (Authenticated(s') <==> token != "")
            && (HasAdminRole(s') <==> userRole == "admin")
            && (HasCsrRole(s') <==> userRole == "csr")
  {
  }

  /** After a clear nobody is authenticated and no role is cached. */
  lemma ClearThenQuery(s: Storage)
    ensures var s' := Cleared(s);
            !Authenticated(s') && Role(s').None? && !HasAdminRole(s') && !HasCsrRole(s')
  {
  }

  /** The two role tests never both hold, and neither holds for any other role. */
  lemma RolesExclusive(s: Storage)
    ensures !(HasAdminRole(s) && HasCsrRole(s))
    ensures Role(s) != Some("admin") && Role(s) != Some("csr") ==> !HasAdminRole(s) && !HasCsrRole(s)
  {
  }

  /** A second set overwrites all three values: the last write wins. */
  lemma LastWriteWins(s: Storage, t1: string, u1: string, r1: string, t2: string, u2: string, r2: string)
    ensures Stored(Stored(s, t1, u1, r1), t2, u2, r2) == Stored(s, t2, u2, r2)
  {
    if s.hasWindow {
      var a := Stored(Stored(s, t1, u1, r1), t2, u2, r2).items;
      var b := Stored(s, t2, u2, r2).items;
      assert a.Keys == b.Keys;
      assert forall k :: k in a ==> a[k] == b[k];
    }
  }

  /** Setting and then clearing leaves the other keys exactly as they were. */
  lemma SetClearRoundTrip(s: Storage, token: string, userId: string, userRole: string)
    ensures Cleared(Stored(s, token, userId, userRole)) == Cleared(s)
  {
    if s.hasWindow {
      var a := Cleared(Stored(s, token, userId, userRole)).items;
      var b := Cleared(s).items;
      assert a.Keys == b.Keys;
      assert forall k :: k in a ==> a[k] == b[k];
    }
  }

  /** The object `useAuthToken()` returns, over the page's `localStorage`. */
  class LocalStorageSession {
    const hasWindow: bool
    var items: map<string, string>

    function State(): Storage
      reads this
    {
      Storage(hasWindow, items)
    }

    constructor (hasWindow: bool, items: map<string, string>)
      ensures State() == Storage(hasWindow, items)
    {
      this.hasWindow := hasWindow;
      this.items := items;
    }

    method SetAuthToken(token: string, userId: string, userRole: string)
      modifies this
      ensures State() == Stored(old(State()), token, userId, userRole)
    {
      if hasWindow {
        items := items[TokenKey := token];
        items := items[UserIdKey := userId];
        items := items[RoleKey := userRole];
      }
    }

    method GetAuthToken() returns (token: Option<string>)
      ensures token == Get(State(), TokenKey)
    {
      if hasWindow {
        token := if TokenKey in items then Some(items[TokenKey]) else None;
      } else {
        token := None;
      }
    }

    /** Removes the three keys and sends the browser to `/`. */
    method ClearAuthToken() returns (navigation: Option<string>)
      modifies this
      ensures State() == Cleared(old(State()))
      ensures navigation == if hasWindow then Some("/") else None
    {
      navigation := None;
      if hasWindow {
        items := items - {TokenKey};
        items := items - {UserIdKey};
        items := items - {RoleKey};
        assert items == old(items) - {TokenKey, UserIdKey, RoleKey};
        navigation := Some("/");
      }
    }

    method IsAuthenticated() returns (b: bool)
      ensures b <==> Authenticated(State())
    {
      if hasWindow {
        b := TokenKey in items && items[TokenKey] != "";
      } else {
        b := false;
      }
    }

    method GetUserRole() returns (role: Option<string>)
      ensures role == Role(State())
    {
      if hasWindow {
        role := if RoleKey in items then Some(items[RoleKey]) else None;
      } else {
        role := None;
      }
    }

    method IsAdmin() returns (b: bool)
      ensures b <==> HasAdminRole(State())
    {
      var role := GetUserRole();
      b := role == Some("admin");
    }

    method IsCSR() returns (b: bool)
      ensures b <==> HasCsrRole(State())
    {
      var role := GetUserRole();
      b := role == Some("csr");
    }
  }
}
