/**
 * The dashboard shell wrapped around every page: the sign-in gate read from
 * browser storage, the sidebar navigation, the header label and sign-out.
 */
module Shell {
  import opened Base

  datatype NavItem = NavItem(name: string, href: string)

  const LoginRoute := "/login"
  const AuthFlagKey := "isAuthenticated"
  const RoleKey := "userRole"

  /** The entries every signed-in user sees, in sidebar order. */
  const MemberNavigation := [
    NavItem("Dashboard", "/dashboard"),
    NavItem("My Profile", "/dashboard/profile"),
    NavItem("Skills", "/dashboard/skills")]

  const AdminItem := NavItem("Admin Panel", "/dashboard/admin")

  /** `localStorage.getItem(key)`: null when the key is absent. */
  function StorageGet(storage: map<string, string>, key: string): (v: Option<string>)
    ensures v.Some? <==> key in storage
    ensures v.Some? ==> v.value == storage[key]
  {
    if key in storage then Some(storage[key]) else None
  }

  /** The header's role label. */
  function HeaderLabel(role: Option<string>): (caption: string)
    ensures caption == "Admin User" <==> role == Some("admin")
    ensures caption == "Admin User" || caption == "Team Member"
  {
    if role == Some("admin") then "Admin User" else "Team Member"
  }

  /** A sidebar entry is highlighted when its route is the current path. */
  predicate IsActive(pathname: string, item: NavItem) {
    pathname == item.href
  }

  /** No two entries of a navigation list share a route. */
  predicate DistinctRoutes(nav: seq<NavItem>) {
    forall i, j :: 0 <= i < j < |nav| ==> nav[i].href != nav[j].href
  }

  /** With distinct routes, at most one entry is highlighted for any path. */
  lemma AtMostOneActive(nav: seq<NavItem>, pathname: string, i: nat, j: nat)
    requires DistinctRoutes(nav) && i < |nav| && j < |nav|
    requires IsActive(pathname, nav[i]) && IsActive(pathname, nav[j])
    ensures i == j
  {
  }

  /**
   * The sidebar list: the three member entries, and the admin entry pushed
   * after them when the stored role is exactly "admin".
   */
  method BuildNavigation(role: Option<string>) returns (nav: seq<NavItem>)
    ensures |nav| >= 3 && nav[..3] == MemberNavigation
    ensures AdminItem in nav <==> role == Some("admin")
    ensures role == Some("admin") ==> nav == MemberNavigation + [AdminItem]
    ensures role != Some("admin") ==> nav == MemberNavigation
    ensures DistinctRoutes(nav)
  {
    nav := MemberNavigation;
    if role == Some("admin") {
      nav := nav + [AdminItem];
    }
  }

  class DashboardLayout {
    /** The browser's local storage. */
    var storage: map<string, string>
    var isAuthenticated: bool
    var userRole: Option<string>
    /** Every route handed to the router, in order. */
    var navigations: seq<string>

    constructor (stored: map<string, string>)
      ensures storage == stored && !isAuthenticated && userRole == None && navigations == []
    {
      storage, isAuthenticated, userRole, navigations := stored, false, None, [];
    }

    /** Nothing but the gate renders until the stored flag has been accepted. */
    predicate RendersNothing()
      reads this
    {
      !isAuthenticated
    }

    /**
     * The mount effect: any stored flag other than the exact text "true" sends
     * the visitor to the login page; otherwise the shell opens with the stored role.
     */
    method AuthGateEffect()
      modifies this
      ensures storage == old(storage)
      ensures StorageGet(storage, AuthFlagKey) != Some("true") ==>
        && navigations == old(navigations) + [LoginRoute]
        && isAuthenticated == old(isAuthenticated) && userRole == old(userRole)
      ensures StorageGet(storage, AuthFlagKey) == Some("true") ==>
        && navigations == old(navigations)
        && isAuthenticated && userRole == StorageGet(storage, RoleKey)
    {
      var authStatus := StorageGet(storage, AuthFlagKey);
      var role := StorageGet(storage, RoleKey);
      if authStatus != Some("true") {
        navigations := navigations + [LoginRoute];
      } else {
        isAuthenticated := true;
        userRole := role;
      }
    }

    /** Sign-out removes both stored keys, keeps every other key, and goes to the login page. */
    method HandleLogout()
      modifies this
      ensures storage == old(storage) - {AuthFlagKey, RoleKey}
      ensures navigations == old(navigations) + [LoginRoute]
      ensures isAuthenticated == old(isAuthenticated) && userRole == old(userRole)
    {
      storage := storage - {AuthFlagKey, RoleKey};
      navigations := navigations + [LoginRoute];
    }
  }

  /** After sign-out the next gate check turns the visitor away, whatever was stored before. */
  lemma LogoutClosesGate(storage: map<string, string>)
    ensures StorageGet(storage - {AuthFlagKey, RoleKey}, AuthFlagKey) == None
    ensures StorageGet(storage - {AuthFlagKey, RoleKey}, RoleKey) == None
  {
  }
}
