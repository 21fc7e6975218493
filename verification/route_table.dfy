// The application's route table (src/App.tsx) and its composition with the
// access gate. Public routes render their page directly; protected routes
// render it only when the gate allows; every unlisted path renders NotFound.
// The router compares a location with the patterns ignoring ASCII case (no
// route sets `caseSensitive`) and accepting trailing slashes, so the table is
// consulted with the location's canonical form; the gate itself still sees the
// location as typed.

module RouteTable {
  import opened Wrappers
  import opened AccessGate
  import Js

  /** The page components the table can render. */
  datatype Page =
    | Index | Login | CheckInstitution | InstitutionSubmission | ClaimAccount | VerifyOtp
    | Payment | PaymentPending | PendingPage | RejectedPage | ForbiddenPage
    | Dashboard | RegionalDashboard | MediaDashboard | CrewDashboard | FinanceDashboard
    | MajelisMilitanDashboard | AdminRegionalDetail | NotFound

  /** A route's element: a page rendered as is, or wrapped in the gate with an optional role list. */
  datatype Element = Public(page: Page) | Protected(page: Page, allowedRoles: Option<seq<Role>>)

  /** The path patterns used in the table: an exact path, a base path with every path
      below it, a base path followed by one parameter segment, and the catch-all. */
  datatype Pattern = Exact(path: string) | Splat(base: string) | Param(base: string) | CatchAll

  datatype Route = Route(pattern: Pattern, element: Element)

  predicate Matches(pattern: Pattern, path: string)
  {
    match pattern
    case Exact(p) => path == p
    case Splat(b) => path == b || (|path| > |b| && path[..|b| + 1] == b + "/")
    case Param(b) => |path| > |b| && path[..|b|] == b && '/' !in path[|b|..]
    case CatchAll => true
  }

  const AdminPusatOnly: Option<seq<Role>> := Some([AdminPusat])
  const AdminRegionalOnly: Option<seq<Role>> := Some([AdminRegional])
  const UserOnly: Option<seq<Role>> := Some([User])

  /** The public routes, rendered without the gate. */
  function PublicRoute(path: string): (e: Option<Element>)
    ensures e.Some? ==> e.value.Public?
  {
    if Matches(Exact("/"), path) then Some(Public(Index))
    else if Matches(Exact("/login"), path) then Some(Public(Login))
    else if Matches(Exact("/check-institution"), path) then Some(Public(CheckInstitution))
    else if Matches(Exact("/institution-submission"), path) then Some(Public(InstitutionSubmission))
    else if Matches(Exact("/claim-account"), path) then Some(Public(ClaimAccount))
    else if Matches(Exact("/verify-otp"), path) then Some(Public(VerifyOtp))
    else if Matches(Exact("/payment"), path) then Some(Public(Payment))
    else if Matches(Exact("/payment-pending"), path) then Some(Public(PaymentPending))
    else None
  }

  /** The status pages, behind the gate with no role list. */
  function StatusRoute(path: string): (e: Option<Element>)
    ensures e.Some? ==> e.value.Protected? && e.value.allowedRoles.None? &&
                        e.value.page in {PendingPage, RejectedPage, ForbiddenPage}
  {
    if Matches(Exact("/pending"), path) then Some(Protected(PendingPage, None))
    else if Matches(Exact("/rejected"), path) then Some(Protected(RejectedPage, None))
    else if Matches(Exact("/403"), path) then Some(Protected(ForbiddenPage, None))
    else None
  }

  /** The central admin's dashboard, admitting admin_pusat only. */
  function AdminPusatRoute(path: string): (e: Option<Element>)
    ensures e.Some? ==> e.value == Protected(Dashboard, AdminPusatOnly)
  {
    if Matches(Exact("/dashboard"), path) then Some(Protected(Dashboard, AdminPusatOnly))
    else if Matches(Splat("/dashboard"), path) then Some(Protected(Dashboard, AdminPusatOnly))
    else None
  }

  /** The regional admin's dashboard, admitting admin_regional only. */
  function AdminRegionalRoute(path: string): (e: Option<Element>)
    ensures e.Some? ==> e.value == Protected(RegionalDashboard, AdminRegionalOnly)
  {
    if Matches(Exact("/regional-dashboard"), path) then Some(Protected(RegionalDashboard, AdminRegionalOnly))
    else if Matches(Splat("/regional-dashboard"), path) then Some(Protected(RegionalDashboard, AdminRegionalOnly))
    else None
  }

  /** The member's media and crew dashboards, admitting user only. */
  function UserRoute(path: string): (e: Option<Element>)
    ensures e.Some? ==> e.value.Protected? && e.value.allowedRoles == UserOnly
  {
    if Matches(Exact("/media-dashboard"), path) then Some(Protected(MediaDashboard, UserOnly))
    else if Matches(Splat("/media-dashboard"), path) then Some(Protected(MediaDashboard, UserOnly))
    else if Matches(Exact("/crew-dashboard"), path) then Some(Protected(CrewDashboard, UserOnly))
    else if Matches(Splat("/crew-dashboard"), path) then Some(Protected(CrewDashboard, UserOnly))
    else None
  }

  /** The finance dashboard, admitting admin_pusat only. */
  function FinanceRoute(path: string): (e: Option<Element>)
    ensures e.Some? ==> e.value == Protected(FinanceDashboard, AdminPusatOnly)
  {
    if Matches(Exact("/finance"), path) then Some(Protected(FinanceDashboard, AdminPusatOnly))
    else if Matches(Splat("/finance"), path) then Some(Protected(FinanceDashboard, AdminPusatOnly))
    else None
  }

  /** The Majelis Militan dashboard, admitting admin_pusat only. */
  function MajelisMilitanRoute(path: string): (e: Option<Element>)
    ensures e.Some? ==> e.value == Protected(MajelisMilitanDashboard, AdminPusatOnly)
  {
    if Matches(Exact("/majelis-militan"), path) then Some(Protected(MajelisMilitanDashboard, AdminPusatOnly))
    else if Matches(Splat("/majelis-militan"), path) then Some(Protected(MajelisMilitanDashboard, AdminPusatOnly))
    else None
  }

  /** The regional-admin detail page, admitting admin_pusat only. */
  function AdminDetailRoute(path: string): (e: Option<Element>)
    ensures e.Some? ==> e.value == Protected(AdminRegionalDetail, AdminPusatOnly)
  {
    if Matches(Param("/admin/regional/"), path) then Some(Protected(AdminRegionalDetail, AdminPusatOnly))
    else None
  }

  /** The element rendered for a path: the routes in declaration order, group by group,
      the first matching one winning, and the catch-all `*` rendering NotFound. */
  function Resolve(path: string): (e: Element)
    ensures e.Protected? && e.allowedRoles.None? ==> e.page in {PendingPage, RejectedPage, ForbiddenPage}
    ensures e.Protected? && e.allowedRoles.Some? ==>
              |e.allowedRoles.value| == 1 && AdminFinance !in e.allowedRoles.value
  {
    if PublicRoute(path).Some? then PublicRoute(path).value
    else if StatusRoute(path).Some? then StatusRoute(path).value
    else if AdminPusatRoute(path).Some? then AdminPusatRoute(path).value
    else if AdminRegionalRoute(path).Some? then AdminRegionalRoute(path).value
    else if UserRoute(path).Some? then UserRoute(path).value
    else if FinanceRoute(path).Some? then FinanceRoute(path).value
    else if MajelisMilitanRoute(path).Some? then MajelisMilitanRoute(path).value
    else if AdminDetailRoute(path).Some? then AdminDetailRoute(path).value
    else Public(NotFound)
  }

  /** The location with its trailing slashes dropped, down to the root `/` itself. */
  function TrimTrailingSlashes(path: string): (r: string)
    ensures |r| <= |path|
  {
    if |path| > 1 && path[|path| - 1] == '/' then TrimTrailingSlashes(path[..|path| - 1]) else path
  }

  /** Only slashes are dropped, and only at the end: what is kept is a prefix, empty only
      for the empty location, that ends in a slash only when it is the root. */
  lemma {:induction false} TrimShape(path: string)
    ensures var r := TrimTrailingSlashes(path);
            r == path[..|r|] && (forall k :: |r| <= k < |path| ==> path[k] == '/') &&
            (|path| > 0 ==> |r| > 0) && (|r| <= 1 || r[|r| - 1] != '/')
  {
    if |path| > 1 && path[|path| - 1] == '/' {
      var p := path[..|path| - 1];
      TrimShape(p);
      var r := TrimTrailingSlashes(p);
      assert path[..|r|] == p[..|r|];
    }
  }

  /** A location written in lower case without a trailing slash (the root `/` apart). */
  predicate IsCanonical(path: string)
  {
    (forall i :: 0 <= i < |path| ==> !('A' <= path[i] <= 'Z')) && (|path| <= 1 || path[|path| - 1] != '/')
  }

  /** The form in which the router compares a location with the patterns: the patterns
      are lower-case ASCII, and a regular expression with the `i` flag but without `u`
      lets a character match a pattern letter only when it is that letter in either
      ASCII case. */
  function Canonical(path: string): (c: string)
    ensures |c| <= |path|
  {
    Js.Lower(TrimTrailingSlashes(path))
  }

  /** The canonical form is canonical, and empty only for the empty location. */
  lemma CanonicalIsCanonical(path: string)
    ensures IsCanonical(Canonical(path)) && (|path| > 0 ==> |Canonical(path)| > 0)
  {
    var t := TrimTrailingSlashes(path);
    TrimShape(path);
    if |t| > 1 {
      assert Canonical(path)[|t| - 1] == Js.LowerChar(t[|t| - 1]);
    }
  }

  /** A canonical location is its own canonical form. */
  lemma CanonicalFixed(path: string)
    requires IsCanonical(path)
    ensures Canonical(path) == path
  {
    assert TrimTrailingSlashes(path) == path;
  }

  /** Any case variant of a canonical location, with trailing slashes or without, has
      that location as its canonical form: `/Dashboard/` is looked up as `/dashboard`. */
  lemma {:induction false} VariantsShareCanonical(path: string, variant: string, slashes: nat)
    requires IsCanonical(path) && path != ""
    requires |variant| == |path| && forall i :: 0 <= i < |path| ==> Js.LowerChar(variant[i]) == path[i]
    ensures Canonical(variant + seq(slashes, _ => '/')) == path
  {
    var typed := variant + seq(slashes, _ => '/');
    var t := TrimTrailingSlashes(typed);
    TrimShape(typed);
    var n := |variant|;
    assert typed[n - 1] == variant[n - 1];
    if |t| < n {
      assert false;
    } else if |t| > n {
      assert false;
    }
    assert t == variant;
  }

  /** What the browser shows after a navigation to `path`. */
  datatype Screen = Wait | Render(page: Page) | Navigate(to: string)

  function Visit(isLoading: bool, hasUser: bool, profile: Option<AuthProfile>, path: string): (s: Screen)
    ensures Resolve(Canonical(path)).Public? ==> s == Render(Resolve(Canonical(path)).page)
    ensures s.Render? ==> s.page == Resolve(Canonical(path)).page
    ensures s.Navigate? ==> s.to in {LoginPath, PendingPath, RejectedPath, ForbiddenPath}
  {
    match Resolve(Canonical(path))
    case Public(page) => Render(page)
    case Protected(page, roles) =>
      match Gate(isLoading, hasUser, profile, path, roles)
      case Loading => Wait
      case Allow => Render(page)
      case Redirect(to) => Navigate(to)
  }

  // ---------------------------------------------------------------------------
  // Which element each path resolves to.

  /** The base path a pattern compares against. */
  function Base(pattern: Pattern): string
  {
    match pattern
    case Exact(p) => p
    case Splat(b) => b
    case Param(b) => b
    case CatchAll => ""
  }

  /** A path that differs from a pattern's base at a position inside both is not matched. */
  lemma Mismatch(pattern: Pattern, path: string, j: nat)
    requires !pattern.CatchAll?
    requires j < |path| && j < |Base(pattern)| && Base(pattern)[j] != path[j]
    ensures !Matches(pattern, path)
  {
    var b := Base(pattern);
    if pattern.Splat? && |path| > |b| {
      assert path[..|b| + 1][j] == path[j];
    }
    if pattern.Param? && |path| > |b| {
      assert path[..|b|][j] == path[j];
    }
  }

  // Each group's paths share their second character, so a path whose second character
  // is none of a group's passes that group by.

  lemma NoPublicRoute(path: string)
    requires |path| > 1 && path[1] !in {'l', 'c', 'i', 'v', 'p'}
    ensures PublicRoute(path).None?
  {
    Mismatch(Exact("/login"), path, 1);
    Mismatch(Exact("/check-institution"), path, 1);
    Mismatch(Exact("/institution-submission"), path, 1);
    Mismatch(Exact("/claim-account"), path, 1);
    Mismatch(Exact("/verify-otp"), path, 1);
    Mismatch(Exact("/payment"), path, 1);
    Mismatch(Exact("/payment-pending"), path, 1);
  }

  lemma NoStatusRoute(path: string)
    requires |path| > 1 && path[1] !in {'p', 'r', '4'}
    ensures StatusRoute(path).None?
  {
    Mismatch(Exact("/pending"), path, 1);
    Mismatch(Exact("/rejected"), path, 1);
    Mismatch(Exact("/403"), path, 1);
  }

  lemma NoAdminPusatRoute(path: string)
    requires |path| > 1 && path[1] != 'd'
    ensures AdminPusatRoute(path).None?
  {
    Mismatch(Exact("/dashboard"), path, 1);
    Mismatch(Splat("/dashboard"), path, 1);
  }

  lemma NoAdminRegionalRoute(path: string)
    requires |path| > 1 && path[1] != 'r'
    ensures AdminRegionalRoute(path).None?
  {
    Mismatch(Exact("/regional-dashboard"), path, 1);
    Mismatch(Splat("/regional-dashboard"), path, 1);
  }

  lemma NoUserRoute(path: string)
    requires |path| > 1 && path[1] !in {'m', 'c'}
    ensures UserRoute(path).None?
  {
    Mismatch(Exact("/media-dashboard"), path, 1);
    Mismatch(Splat("/media-dashboard"), path, 1);
    Mismatch(Exact("/crew-dashboard"), path, 1);
    Mismatch(Splat("/crew-dashboard"), path, 1);
  }

  lemma NoFinanceRoute(path: string)
    requires |path| > 1 && path[1] != 'f'
    ensures FinanceRoute(path).None?
  {
    Mismatch(Exact("/finance"), path, 1);
    Mismatch(Splat("/finance"), path, 1);
  }

  lemma NoMajelisMilitanRoute(path: string)
    requires |path| > 1 && path[1] != 'm'
    ensures MajelisMilitanRoute(path).None?
  {
    Mismatch(Exact("/majelis-militan"), path, 1);
    Mismatch(Splat("/majelis-militan"), path, 1);
  }

  /** `/dashboard` and every path below it render Dashboard behind the gate admitting only admin_pusat. */
  lemma DashboardRoutes(rest: string)
    ensures Resolve("/dashboard") == Protected(Dashboard, AdminPusatOnly)
    ensures Resolve("/dashboard/" + rest) == Protected(Dashboard, AdminPusatOnly)
  {
    NoPublicRoute("/dashboard");
    NoStatusRoute("/dashboard");
    var path := "/dashboard/" + rest;
    assert path[..11] == "/dashboard/";
    NoPublicRoute(path);
    NoStatusRoute(path);
  }

  /** `/regional-dashboard` and every path below it render RegionalDashboard behind the gate
      admitting only admin_regional. */
  lemma RegionalDashboardRoutes(rest: string)
    ensures Resolve("/regional-dashboard") == Protected(RegionalDashboard, AdminRegionalOnly)
    ensures Resolve("/regional-dashboard/" + rest) == Protected(RegionalDashboard, AdminRegionalOnly)
  {
    RegionalDashboardAt("/regional-dashboard");
    var path := "/regional-dashboard/" + rest;
    assert path[..20] == "/regional-dashboard/";
    RegionalDashboardAt(path);
  }

  /** A path beginning `/reg` passes the groups before the regional admin's. */
  lemma RegionalDashboardAt(path: string)
    requires |path| > 3 && path[..4] == "/reg"
    requires AdminRegionalRoute(path).Some?
    ensures Resolve(path) == Protected(RegionalDashboard, AdminRegionalOnly)
  {
    assert path[1] == 'r' && path[3] == 'g';
    NoPublicRoute(path);
    Mismatch(Exact("/pending"), path, 1);
    Mismatch(Exact("/rejected"), path, 3);
    Mismatch(Exact("/403"), path, 1);
    NoAdminPusatRoute(path);
  }

  /** `/media-dashboard` and every path below it render MediaDashboard behind the gate
      admitting only user. */
  lemma MediaDashboardRoutes(rest: string)
    ensures Resolve("/media-dashboard") == Protected(MediaDashboard, UserOnly)
    ensures Resolve("/media-dashboard/" + rest) == Protected(MediaDashboard, UserOnly)
  {
    PastAdminRoutes("/media-dashboard");
    var path := "/media-dashboard/" + rest;
    assert path[..17] == "/media-dashboard/";
    PastAdminRoutes(path);
  }

  /** `/crew-dashboard` and every path below it render CrewDashboard behind the gate
      admitting only user. */
  lemma CrewDashboardRoutes(rest: string)
    ensures Resolve("/crew-dashboard") == Protected(CrewDashboard, UserOnly)
    ensures Resolve("/crew-dashboard/" + rest) == Protected(CrewDashboard, UserOnly)
  {
    CrewDashboardAt("/crew-dashboard");
    var path := "/crew-dashboard/" + rest;
    assert path[..16] == "/crew-dashboard/";
    CrewDashboardAt(path);
  }

  /** A path beginning `/cr` passes every group before the user's, and the media routes. */
  lemma CrewDashboardAt(path: string)
    requires |path| > 2 && path[..3] == "/cr"
    requires Matches(Exact("/crew-dashboard"), path) || Matches(Splat("/crew-dashboard"), path)
    ensures Resolve(path) == Protected(CrewDashboard, UserOnly)
  {
    assert path[1] == 'c' && path[2] == 'r';
    Mismatch(Exact("/login"), path, 1);
    Mismatch(Exact("/check-institution"), path, 2);
    Mismatch(Exact("/institution-submission"), path, 1);
    Mismatch(Exact("/claim-account"), path, 2);
    Mismatch(Exact("/verify-otp"), path, 1);
    Mismatch(Exact("/payment"), path, 1);
    Mismatch(Exact("/payment-pending"), path, 1);
    NoStatusRoute(path);
    NoAdminPusatRoute(path);
    NoAdminRegionalRoute(path);
    Mismatch(Exact("/media-dashboard"), path, 1);
    Mismatch(Splat("/media-dashboard"), path, 1);
  }

  /** A path whose second character is `m`, `f` or `a` passes the public, status, central
      and regional groups. */
  lemma PastAdminRoutes(path: string)
    requires |path| > 1 && path[1] in {'m', 'f', 'a'}
    ensures Resolve(path) == (if UserRoute(path).Some? then UserRoute(path).value
                              else if FinanceRoute(path).Some? then FinanceRoute(path).value
                              else if MajelisMilitanRoute(path).Some? then MajelisMilitanRoute(path).value
                              else if AdminDetailRoute(path).Some? then AdminDetailRoute(path).value
                              else Public(NotFound))
  {
    NoPublicRoute(path);
    NoStatusRoute(path);
    NoAdminPusatRoute(path);
    NoAdminRegionalRoute(path);
  }

  /** `/finance` and every path below it render FinanceDashboard behind the gate admitting
      only admin_pusat. */
  lemma FinanceRoutes(rest: string)
    ensures Resolve("/finance") == Protected(FinanceDashboard, AdminPusatOnly)
    ensures Resolve("/finance/" + rest) == Protected(FinanceDashboard, AdminPusatOnly)
  {
    PastAdminRoutes("/finance");
    NoUserRoute("/finance");
    var path := "/finance/" + rest;
    assert path[..9] == "/finance/";
    PastAdminRoutes(path);
    NoUserRoute(path);
  }

  /** `/majelis-militan` and every path below it render MajelisMilitanDashboard behind the
      gate admitting only admin_pusat. */
  lemma MajelisMilitanRoutes(rest: string)
    ensures Resolve("/majelis-militan") == Protected(MajelisMilitanDashboard, AdminPusatOnly)
    ensures Resolve("/majelis-militan/" + rest) == Protected(MajelisMilitanDashboard, AdminPusatOnly)
  {
    MajelisMilitanAt("/majelis-militan");
    var path := "/majelis-militan/" + rest;
    assert path[..17] == "/majelis-militan/";
    MajelisMilitanAt(path);
  }

  /** A path beginning `/ma` passes every group before the Majelis Militan one. */
  lemma MajelisMilitanAt(path: string)
    requires |path| > 2 && path[..3] == "/ma"
    requires MajelisMilitanRoute(path).Some?
    ensures Resolve(path) == Protected(MajelisMilitanDashboard, AdminPusatOnly)
  {
    assert path[1] == 'm' && path[2] == 'a';
    PastAdminRoutes(path);
    Mismatch(Exact("/media-dashboard"), path, 2);
    Mismatch(Splat("/media-dashboard"), path, 2);
    Mismatch(Exact("/crew-dashboard"), path, 1);
    Mismatch(Splat("/crew-dashboard"), path, 1);
    NoFinanceRoute(path);
  }

  /** `/admin/regional/:id` renders the regional-admin detail page for admin_pusat only. */
  lemma AdminRegionalDetailRoutes(id: string)
    requires id != "" && '/' !in id
    ensures Resolve("/admin/regional/" + id) == Protected(AdminRegionalDetail, AdminPusatOnly)
  {
    var path := "/admin/regional/" + id;
    assert path[..16] == "/admin/regional/" && path[16..] == id;
    assert path[1] == 'a';
    assert Matches(Param("/admin/regional/"), path);
    PastAdminRoutes(path);
    NoUserRoute(path);
    NoFinanceRoute(path);
    NoMajelisMilitanRoute(path);
  }

  /** The status pages pass through the gate with no role list. */
  lemma StatusRoutes()
    ensures Resolve(PendingPath) == Protected(PendingPage, None)
    ensures Resolve(RejectedPath) == Protected(RejectedPage, None)
    ensures Resolve(ForbiddenPath) == Protected(ForbiddenPage, None)
  {
    Mismatch(Exact("/payment"), PendingPath, 2);
  }

  /** The eight public paths render their page without consulting the gate. */
  lemma PublicRoutes()
    ensures Resolve("/") == Public(Index)
    ensures Resolve("/login") == Public(Login)
    ensures Resolve("/check-institution") == Public(CheckInstitution)
    ensures Resolve("/institution-submission") == Public(InstitutionSubmission)
    ensures Resolve("/claim-account") == Public(ClaimAccount)
    ensures Resolve("/verify-otp") == Public(VerifyOtp)
    ensures Resolve("/payment") == Public(Payment)
    ensures Resolve("/payment-pending") == Public(PaymentPending)
  {
  }

  /** There is no registration route: `/register` falls through to NotFound. */
  lemma RegisterIsNotFound()
    ensures Resolve("/register") == Public(NotFound)
  {
    var path := "/register";
    NoPublicRoute(path);
    Mismatch(Exact("/pending"), path, 1);
    Mismatch(Exact("/rejected"), path, 3);
    Mismatch(Exact("/403"), path, 1);
    NoAdminPusatRoute(path);
    Mismatch(Exact("/regional-dashboard"), path, 5);
    Mismatch(Splat("/regional-dashboard"), path, 5);
    NoUserRoute(path);
    NoFinanceRoute(path);
    NoMajelisMilitanRoute(path);
    Mismatch(Param("/admin/regional/"), path, 1);
  }

  /** An active `user` asking for the central dashboard is sent to the forbidden page. */
  lemma UserDeniedCentralDashboard(p: AuthProfile)
    requires p.status == Active && p.role == User
    ensures Visit(false, true, Some(p), "/dashboard") == Navigate(ForbiddenPath)
  {
    CentralLocation();
  }

  /** The router ignores case and trailing slashes: an active `user` typing the central
      dashboard's path in any case, with or without trailing slashes, is still sent to
      the forbidden page rather than to NotFound. */
  lemma UserDeniedCentralDashboardVariant(p: AuthProfile, variant: string, slashes: nat)
    requires p.status == Active && p.role == User
    requires |variant| == |"/dashboard"| && forall i :: 0 <= i < |variant| ==> Js.LowerChar(variant[i]) == "/dashboard"[i]
    ensures Visit(false, true, Some(p), variant + seq(slashes, _ => '/')) == Navigate(ForbiddenPath)
  {
    var typed := variant + seq(slashes, _ => '/');
    VariantsShareCanonical("/dashboard", variant, slashes);
    CentralLocation();
    assert Js.LowerChar(typed[1]) == 'd';
    assert typed != ForbiddenPath;
  }

  /** A pending identity asking for the central dashboard is sent to the pending page. */
  lemma PendingDeniedCentralDashboard(p: AuthProfile)
    requires p.status == Pending
    ensures Visit(false, true, Some(p), "/dashboard") == Navigate(PendingPath)
  {
    CentralLocation();
  }

  /** Every active role, admin_finance included, reaches all three status pages. */
  lemma StatusPagesOpenToActive(p: AuthProfile)
    requires p.status == Active
    ensures Visit(false, true, Some(p), ForbiddenPath) == Render(ForbiddenPage)
    ensures Visit(false, true, Some(p), PendingPath) == Render(PendingPage)
    ensures Visit(false, true, Some(p), RejectedPath) == Render(RejectedPage)
  {
    StatusLocations();
  }

  /** The dashboards' own paths are looked up as written. */
  lemma CentralLocation()
    ensures Resolve(Canonical("/dashboard")) == Protected(Dashboard, AdminPusatOnly)
  {
    CanonicalFixed("/dashboard");
    DashboardRoutes("");
  }

  lemma RegionalLocation()
    ensures Resolve(Canonical("/regional-dashboard")) == Protected(RegionalDashboard, AdminRegionalOnly)
  {
    CanonicalFixed("/regional-dashboard");
    RegionalDashboardRoutes("");
  }

  lemma MediaLocation()
    ensures Resolve(Canonical("/media-dashboard")) == Protected(MediaDashboard, UserOnly)
  {
    CanonicalFixed("/media-dashboard");
    MediaDashboardRoutes("");
  }

  lemma FinanceLocation()
    ensures Resolve(Canonical("/finance")) == Protected(FinanceDashboard, AdminPusatOnly)
  {
    CanonicalFixed("/finance");
    FinanceRoutes("");
  }

  /** The status paths, as the gate compares them, are looked up as written. */
  lemma StatusLocations()
    ensures Resolve(Canonical(PendingPath)) == Protected(PendingPage, None)
    ensures Resolve(Canonical(RejectedPath)) == Protected(RejectedPage, None)
    ensures Resolve(Canonical(ForbiddenPath)) == Protected(ForbiddenPage, None)
  {
    CanonicalFixed(ForbiddenPath);
    CanonicalFixed(PendingPath);
    CanonicalFixed(RejectedPath);
    StatusRoutes();
  }

  /** Wherever it navigates, a pending identity sees only public pages and the pending page. */
  lemma PendingSeesOnlyPendingPage(p: AuthProfile, path: string)
    requires p.status == Pending
    ensures Visit(false, true, Some(p), path).Render? ==>
              Resolve(Canonical(path)).Public? || Visit(false, true, Some(p), path).page == PendingPage
  {
    if Resolve(Canonical(path)).Protected? && Visit(false, true, Some(p), path).Render? {
      StatusLocations();
    }
  }

  /** Wherever it navigates, a rejected identity sees only public pages and the rejected page. */
  lemma RejectedSeesOnlyRejectedPage(p: AuthProfile, path: string)
    requires p.status == Rejected
    ensures Visit(false, true, Some(p), path).Render? ==>
              Resolve(Canonical(path)).Public? || Visit(false, true, Some(p), path).page == RejectedPage
  {
    if Resolve(Canonical(path)).Protected? && Visit(false, true, Some(p), path).Render? {
      StatusLocations();
    }
  }

  /** No protected route admits admin_finance: apart from the public pages it sees only
      the status pages, `/finance` included. */
  lemma FinanceAdminHasNoDashboard(p: AuthProfile, path: string)
    requires p.role == AdminFinance
    ensures Visit(false, true, Some(p), path).Render? ==>
              Resolve(Canonical(path)).Public? || Visit(false, true, Some(p), path).page in {PendingPage, RejectedPage, ForbiddenPage}
  {
    if Resolve(Canonical(path)).Protected? && Visit(false, true, Some(p), path).Render? {
      StatusLocations();
    }
  }

  /** In particular an active admin_finance asking for `/finance` is sent to the forbidden page. */
  lemma FinanceAdminDeniedFinance(p: AuthProfile)
    requires p.status == Active && p.role == AdminFinance
    ensures Visit(false, true, Some(p), "/finance") == Navigate(ForbiddenPath)
  {
    FinanceLocation();
  }
}
