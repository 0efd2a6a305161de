/** Route gating and navigation (src/App.tsx): what ProtectedRoute shows,
    the navigation links a user sees, and which link is highlighted. */
module AppRoutes {
  import opened Common
  import opened Auth

  /** What ProtectedRoute renders. */
  datatype Gate = Spinner | RedirectToLogin | Forbidden | Children

  /** ProtectedRoute: the spinner while the session loads, then the login
      redirect without a user, then the forbidden panel when a required
      privilege (an empty name requires nothing) is missing. */
  function ProtectedRoute(isLoading: bool, user: Option<User>, required: Option<string>): (g: Gate)
    ensures isLoading <==> g == Spinner
    ensures g == RedirectToLogin <==> !isLoading && user.None?
    ensures g == Forbidden <==>
              !isLoading && user.Some? && required.Some? && required.value != [] && !UserHasPrivilege(user, required.value)
    ensures g == Children ==> !isLoading && user.Some?
  {
    if isLoading then Spinner
    else if user.None? then RedirectToLogin
    else if required.Some? && required.value != [] && !UserHasPrivilege(user, required.value) then Forbidden
    else Children
  }

  /** The pages behind the outer guard. */
  datatype Page = Home | DeviceNew | DeviceEdit | DeviceDetail | Devices | CheckForm | Checks
                | Departments | Reports | MaintenanceReport | Admin | Contact

  /** The path each page is routed at. */
  function PathOf(p: Page): string
  {
    match p
    case Home => "/"
    case DeviceNew => "/device/new"
    case DeviceEdit => "/device/edit/:deviceId"
    case DeviceDetail => "/device/:deviceId"
    case Devices => "/devices"
    case CheckForm => "/check"
    case Checks => "/checks"
    case Departments => "/departments"
    case Reports => "/reports"
    case MaintenanceReport => "/reports/maintenance"
    case Admin => "/admin"
    case Contact => "/contact"
  }

  /** The privilege each page's own guard requires. */
  function RequiredFor(p: Page): (r: Option<string>)
    ensures r.None? <==> p == Home || p == Contact
    ensures r.Some? ==> r.value != []
  {
    match p
    case Home => None
    case DeviceNew => Some("add_devices")
    case DeviceEdit => Some("edit_devices")
    case DeviceDetail => Some("view_devices")
    case Devices => Some("view_devices")
    case CheckForm => Some("add_checks")
    case Checks => Some("view_checks")
    case Departments => Some("manage_departments")
    case Reports => Some("view_reports")
    case MaintenanceReport => Some("view_reports")
    case Admin => Some("manage_users")
    case Contact => None
  }

  /** What a page shows: the outer guard without a privilege, then the
      page's own guard. */
  function Access(isLoading: bool, user: Option<User>, p: Page): (g: Gate)
    ensures g == Forbidden <==> !isLoading && user.Some? && p != Home && p != Contact
                                && !UserHasPrivilege(user, RequiredFor(p).value)
  {
    var outer := ProtectedRoute(isLoading, user, None);
    if outer != Children then outer else ProtectedRoute(isLoading, user, RequiredFor(p))
  }

  /** While loading every page is the spinner; with no user every page
      redirects to login; an admin sees every page. */
  lemma AccessRules(isLoading: bool, user: Option<User>, p: Page)
    ensures isLoading ==> Access(isLoading, user, p) == Spinner
    ensures !isLoading && user.None? ==> Access(isLoading, user, p) == RedirectToLogin
    ensures !isLoading && user.Some? && user.value.role == "admin" ==> Access(isLoading, user, p) == Children
  {
  }

  /** A navigation link; a link without a privilege is always shown. */
  datatype NavLink = NavLink(to: Page, privilege: Option<string>)

  const NAV_LINKS: seq<NavLink> := [
    NavLink(Home, None),
    NavLink(Devices, Some("view_devices")),
    NavLink(Checks, Some("view_checks")),
    NavLink(Departments, Some("manage_departments")),
    NavLink(Reports, Some("view_reports")),
    NavLink(Admin, Some("manage_users")),
    NavLink(Contact, None)
  ]

  predicate LinkShown(link: NavLink, user: Option<User>)
  {
    link.privilege.None? || link.privilege.value == [] || UserHasPrivilege(user, link.privilege.value)
  }

  /** The `navLinks` filter. */
  function VisibleLinks(links: seq<NavLink>, user: Option<User>): (r: seq<NavLink>)
    ensures forall l :: l in r <==> l in links && LinkShown(l, user)
    ensures IsSubsequence(r, links)
  {
    if links == [] then []
    else if LinkShown(links[0], user) then [links[0]] + VisibleLinks(links[1..], user)
    else VisibleLinks(links[1..], user)
  }

  /** Keeping every link keeps the list as it is. */
  lemma {:induction false} AllShownKeepsAll(links: seq<NavLink>, user: Option<User>)
    requires forall l :: l in links ==> LinkShown(l, user)
    ensures VisibleLinks(links, user) == links
  {
    if links != [] {
      AllShownKeepsAll(links[1..], user);
    }
  }

  /** An admin sees every link, in the declared order. */
  lemma AdminSeesAllLinks(user: Option<User>)
    requires user.Some? && user.value.role == "admin"
    ensures VisibleLinks(NAV_LINKS, user) == NAV_LINKS
  {
    AllShownKeepsAll(NAV_LINKS, user);
  }

  /** Links the user may not see vanish from the front of any list. */
  lemma {:induction false} HiddenPrefixVanishes(hidden: seq<NavLink>, rest: seq<NavLink>, user: Option<User>)
    requires forall l | l in hidden :: !LinkShown(l, user)
    ensures VisibleLinks(hidden + rest, user) == VisibleLinks(rest, user)
  {
    if hidden == [] {
      assert hidden + rest == rest;
    } else {
      assert (hidden + rest)[0] == hidden[0];
      assert (hidden + rest)[1..] == hidden[1..] + rest;
      HiddenPrefixVanishes(hidden[1..], rest, user);
    }
  }

  /** A user who is not an admin and holds no privilege sees only the home
      and contact links. */
  lemma UnprivilegedSeesHomeAndContact(user: Option<User>)
    requires user.Some? && user.value.role != "admin" && user.value.privileges == []
    ensures VisibleLinks(NAV_LINKS, user) == [NavLink(Home, None), NavLink(Contact, None)]
  {
    var contact := [NavLink(Contact, None)];
    var hidden := NAV_LINKS[1..6];
    assert NAV_LINKS[1..] == hidden + contact;
    HiddenPrefixVanishes(hidden, contact, user);
    assert contact[1..] == [];
    assert VisibleLinks(contact, user) == contact;
  }

  /** Every link a signed-in user sees opens a page that user may see: the
      links ask for the same privileges as their routes. */
  lemma VisibleLinksOpen(user: Option<User>, link: NavLink)
    requires user.Some? && link in VisibleLinks(NAV_LINKS, user)
    ensures Access(false, user, link.to) == Children
  {
    LinksMatchRoutes();
  }

  /** Each link's privilege is the one its page requires. */
  lemma LinksMatchRoutes()
    ensures forall l | l in NAV_LINKS :: RequiredFor(l.to) == l.privilege
  {
  }

  /** isActive: "/" only on the home page itself, any other link on every
      path below it (or merely starting with it). */
  predicate IsActive(pathname: string, path: string)
  {
    if path == "/" then pathname == "/" else StartsWith(pathname, path)
  }

  /** The home link is never highlighted elsewhere, and a link is always
      highlighted on its own path. */
  lemma ActiveRules(pathname: string, path: string)
    ensures IsActive(pathname, "/") <==> pathname == "/"
    ensures IsActive(path, path)
    ensures path != "/" ==> (IsActive(pathname, path) <==> |path| <= |pathname| && pathname[..|path|] == path)
  {
    assert path[..|path|] == path;
  }
}
