/** The admin console's layout: the session check run on every path change, logout, what is
    rendered, and which menu item is highlighted. Browser storage is a map from key to string
    and the router's navigations are recorded in a list. */
module AdminLayout {
  import opened Text

  const LoginPath := "/admin/login"

  /** The storage key of the signed-in administrator. */
  const SessionKey := "adminUser"

  /** The `href`s of the sidebar menu, in order: dashboard, services, blog posts, users. */
  const MenuHrefs := ["/admin/dashboard", "/admin/services", "/admin/blogs", "/admin/users"]

  type Storage = map<string, string>

  /** A stored, non-empty `adminUser` entry (`getItem` returns `null` for a missing key). */
  predicate SignedIn(storage: Storage) {
    SessionKey in storage && storage[SessionKey] != ""
  }

  datatype Decision = Authorize | RedirectToLogin

  /** The session effect's decision for a path. */
  function SessionDecision(pathname: string, storage: Storage): Decision {
    if pathname == LoginPath then Authorize
    else if !SignedIn(storage) then RedirectToLogin
    else Authorize
  }

  /** The login page is always let through; any other path is let through exactly when an
      administrator is signed in, and otherwise sent to the login page. */
  lemma SessionDecisionSpec(pathname: string, storage: Storage)
    ensures pathname == LoginPath ==> SessionDecision(pathname, storage) == Authorize
    ensures pathname != LoginPath ==> (SessionDecision(pathname, storage) == Authorize <==> SignedIn(storage))
  {
  }

  /** What the layout renders. */
  datatype View = Nothing | PageOnly | WithSidebar

  /** Nothing until authorized; the login page without the sidebar; any other page inside it. */
  function Render(isAuthorized: bool, pathname: string): (v: View)
    ensures v == Nothing <==> !isAuthorized
    ensures v == PageOnly <==> isAuthorized && pathname == LoginPath
  {
    if !isAuthorized then Nothing
    else if pathname == LoginPath then PageOnly
    else WithSidebar
  }

  /** A menu item is highlighted when the path starts with its `href`. */
  predicate IsActive(pathname: string, href: string) {
    IsPrefix(href, pathname)
  }

  /** The indices of the highlighted menu items. */
  function ActiveItems(pathname: string): set<int> {
    set i | 0 <= i < |MenuHrefs| && IsActive(pathname, MenuHrefs[i])
  }

  /** The menu's `href`s all differ at their eighth character, so no path highlights two items;
      a page below an item, such as the service editor, highlights that item. */
  lemma AtMostOneActive(pathname: string)
    ensures |ActiveItems(pathname)| <= 1
    ensures IsActive("/admin/services/add", "/admin/services")
  {
    forall i, j | i in ActiveItems(pathname) && j in ActiveItems(pathname) ensures i == j {
      assert pathname[7] == MenuHrefs[i][7] && pathname[7] == MenuHrefs[j][7];
    }
    if ActiveItems(pathname) != {} {
      var i :| i in ActiveItems(pathname);
      assert ActiveItems(pathname) == {i};
    }
    assert "/admin/services/add"[..|"/admin/services"|] == "/admin/services";
  }

  /** Once the session entry is removed, every path but the login page is redirected. */
  lemma LoggedOutIsRedirected(pathname: string, storage: Storage)
    requires pathname != LoginPath
    ensures SessionDecision(pathname, storage - {SessionKey}) == RedirectToLogin
  {
  }

  /** The layout's state, the browser storage and the navigations it has asked for. */
  class AdminShell {
    var isAuthorized: bool
    var storage: Storage
    var navigations: seq<string>

    constructor (storage: Storage)
      ensures !isAuthorized && this.storage == storage && navigations == []
    {
      isAuthorized := false;
      this.storage := storage;
      navigations := [];
    }

    /** The session effect for `pathname`. It only ever sets `isAuthorized`, never clears it. */
    method SessionEffect(pathname: string)
      modifies this
      ensures isAuthorized == (old(isAuthorized) || SessionDecision(pathname, old(storage)) == Authorize)
      ensures navigations == old(navigations) + if SessionDecision(pathname, old(storage)) == RedirectToLogin then [LoginPath] else []
      ensures storage == old(storage)
    {
      if pathname == LoginPath {
        isAuthorized := true;
        return;
      }
      var signedIn := SignedIn(storage);
      if !signedIn {
        navigations := navigations + [LoginPath];
      } else {
        isAuthorized := true;
      }
    }

    /** `handleLogout`: forget the session and go to the login page. */
    method HandleLogout()
      modifies this
      ensures storage == old(storage) - {SessionKey}
      ensures !SignedIn(storage)
      ensures navigations == old(navigations) + [LoginPath]
      ensures isAuthorized == old(isAuthorized)
    {
      storage := storage - {SessionKey};
      navigations := navigations + [LoginPath];
    }

    function Rendered(pathname: string): View
      reads this
    {
      Render(isAuthorized, pathname)
    }
  }
}
