/** What a layout renders: the page, possibly inside the section's navigation shell. */
module Views {
  datatype View = Page(name: string) | AdminShell(content: View) | CsrShell(content: View)
}

/**
 * The admin section's layout (app/admin/layout.js): it starts unauthorized,
 * renders nothing, and on mount either sends the browser to `/` or flips
 * `isAuthorized` and from then on renders its children inside the navbar.
 */
module AdminLayout {
  import opened Wrappers
  import opened AuthToken
  import opened Views

  /** `isAuthenticated() && isAdmin()`. */
  predicate Admits(s: Storage) {
    Authenticated(s) && HasAdminRole(s)
  }

  /** A cached CSR never gets past the admin layout. */
  lemma CsrNeverAdmitted(s: Storage)
    requires HasCsrRole(s)
    ensures !Admits(s)
  {
  }

  class Layout {
    var isAuthorized: bool

    /** `useState(false)`. */
    constructor ()
      ensures !isAuthorized
    {
      isAuthorized := false;
    }

    /** The mount effect. */
    method RunEffect(session: LocalStorageSession) returns (navigation: Option<string>)
      modifies this
      ensures isAuthorized == (old(isAuthorized) || Admits(session.State()))
      ensures navigation == (if Admits(session.State()) then None else Some("/"))
    {
      var authenticated := session.IsAuthenticated();
      var admin := session.IsAdmin();
      if !authenticated || !admin {
        navigation := Some("/");
      } else {
        isAuthorized := true;
        navigation := None;
      }
    }

    /** `null` until authorized, then the children inside the admin navbar. */
    function Render(children: View): (v: Option<View>)
      reads this
      ensures v.Some? <==> isAuthorized
      ensures v.Some? ==> v.value.AdminShell? && v.value.content == children
    {
      if !isAuthorized then None else Some(AdminShell(children))
    }
  }

  /** A freshly mounted layout renders nothing, and renders the page after an admitting effect. */
  method MountAdminLayout(session: LocalStorageSession, children: View)
    returns (before: Option<View>, navigation: Option<string>, after: Option<View>)
    ensures before.None?
    ensures after.Some? <==> Admits(session.State())
    ensures navigation.Some? <==> !Admits(session.State())
  {
    var layout := new Layout();
    before := layout.Render(children);
    navigation := layout.RunEffect(session);
    after := layout.Render(children);
  }
}

/**
 * The CSR section's layout (app/csr/layout.js): the same shape, but it
 * admits a CSR or an admin, and it does nothing at all without a window.
 */
module CsrLayout {
  import opened Wrappers
  import opened AuthToken
  import opened Views
  import Auth

  /** `isAuthenticated() && (isCSR() || isAdmin())`. */
  predicate Admits(s: Storage) {
    Authenticated(s) && (HasCsrRole(s) || HasAdminRole(s))
  }

  class Layout {
    var isAuthorized: bool

    constructor ()
      ensures !isAuthorized
    {
      isAuthorized := false;
    }

    method RunEffect(session: LocalStorageSession) returns (navigation: Option<string>)
      modifies this
      ensures isAuthorized == (old(isAuthorized) || Admits(session.State()))
      ensures navigation == (if !session.hasWindow || Admits(session.State()) then None else Some("/"))
    {
      navigation := None;
      if session.hasWindow {
        var authenticated := session.IsAuthenticated();
        var csr := session.IsCSR();
        var admin := session.IsAdmin();
        if !authenticated || (!csr && !admin) {
          navigation := Some("/");
        } else {
          isAuthorized := true;
        }
      }
    }

    function Render(children: View): (v: Option<View>)
      reads this
      ensures v.Some? <==> isAuthorized
      ensures v.Some? ==> v.value.CsrShell? && v.value.content == children
    {
      if !isAuthorized then None else Some(CsrShell(children))
    }
  }

  /** A fresh mount: nothing first, the page afterwards exactly when the cache admits it. */
  method MountCsrLayout(session: LocalStorageSession, children: View)
    returns (before: Option<View>, navigation: Option<string>, after: Option<View>)
    ensures before.None?
    ensures after.Some? <==> Admits(session.State())
    ensures session.hasWindow ==> (navigation.Some? <==> !Admits(session.State()))
  {
    var layout := new Layout();
    before := layout.Render(children);
    navigation := layout.RunEffect(session);
    after := layout.Render(children);
  }

  /** Any role other than 'csr' or 'admin', or no role at all, is turned away. */
  lemma OtherRolesTurnedAway(s: Storage)
    requires Role(s) != Some("csr") && Role(s) != Some("admin")
    ensures !Admits(s)
  {
  }

  /**
   * The layout and `withCsrAuth` disagree on admins: the layout lets an
   * admin in, the wrapper sends the same admin to `/`.
   */
  lemma LayoutAndWrapperDisagreeOnAdmins(s: Storage)
    requires s.hasWindow && Authenticated(s) && HasAdminRole(s)
    ensures Admits(s)
    ensures Auth.WithCsrAuth(s).effect == Auth.Navigate("/")
  {
  }
}
