// The forbidden page (src/pages/Forbidden.tsx), where the access gate sends a
// signed-in identity whose role a route does not admit. The page has no
// effect of its own: it moves only when one of its buttons is clicked.
//
// The page reads `role` from the authentication context, whose value
// (src/contexts/AuthContext.tsx:21-27) has no such field, so the role it
// reads is always absent and "my dashboard" always means the media
// dashboard. `DashboardFromContext` models the page as written;
// `DashboardFromProfile` reads the role from the context's profile instead.

module Forbidden {
  import opened Wrappers
  import opened AccessGate
  import RouteTable

  const CentralDashboardPath: string := "/dashboard"
  const RegionalDashboardPath: string := "/regional-dashboard"
  const MediaDashboardPath: string := "/media-dashboard"

  /** `getDashboardPath()` for the role read: the central and regional admins have their
      own dashboards; every other value, an absent one included, leads to the media
      dashboard. */
  function DashboardPath(role: Option<Role>): (path: string)
    ensures path == CentralDashboardPath <==> role == Some(AdminPusat)
    ensures path == RegionalDashboardPath <==> role == Some(AdminRegional)
    ensures path == MediaDashboardPath <==> role.None? || role.value in {AdminFinance, User}
  {
    match role
    case Some(AdminPusat) => CentralDashboardPath
    case Some(AdminRegional) => RegionalDashboardPath
    case _ => MediaDashboardPath
  }

  /** The context value the page reads: the signed-in user, the profile and the loading
      flag, and no role. */
  datatype AuthContextValue = AuthContextValue(hasUser: bool, profile: Option<AuthProfile>, isLoading: bool)

  /** The button target as written: `role` is read from a context value that has no role,
      so it is absent whatever the profile says. */
  function DashboardFromContext(ctx: AuthContextValue): (path: string)
    ensures path == MediaDashboardPath
  {
    var role: Option<Role> := None;
    DashboardPath(role)
  }

  /** The button target with the role taken from the context's profile. */
  function DashboardFromProfile(ctx: AuthContextValue): (path: string)
    ensures ctx.profile.Some? ==> path == DashboardPath(Some(ctx.profile.value.role))
    ensures ctx.profile.None? ==> path == MediaDashboardPath
  {
    DashboardPath(if ctx.profile.Some? then Some(ctx.profile.value.role) else None)
  }

  datatype Click = ToMyDashboard | GoBack | LogOut

  /** What the page does: navigate to a path, go one history entry back, or sign out. */
  datatype Effect = NavigateTo(path: string) | HistoryBack | SignOut

  /** The page's reaction to a click; it has no other. */
  function OnClick(ctx: AuthContextValue, click: Click): (e: Effect)
    ensures e.NavigateTo? <==> click == ToMyDashboard
    ensures e.NavigateTo? ==> e.path == DashboardFromContext(ctx)
    ensures e == HistoryBack <==> click == GoBack
    ensures e == SignOut <==> click == LogOut
  {
    match click
    case ToMyDashboard => NavigateTo(DashboardFromContext(ctx))
    case GoBack => HistoryBack
    case LogOut => SignOut
  }

  /** As written, an active central admin who lands on the forbidden page and clicks "my
      dashboard" is sent to the media dashboard, which admits only `user`, and so back to
      the forbidden page. */
  lemma CentralAdminBouncesBack(p: AuthProfile)
    requires p.status == Active && p.role == AdminPusat
    ensures var ctx := AuthContextValue(true, Some(p), false);
            RouteTable.Visit(false, true, Some(p), DashboardFromContext(ctx)) == RouteTable.Navigate(ForbiddenPath)
  {
    RouteTable.MediaLocation();
  }

  /** With the role taken from the profile, the button leads every active central admin,
      regional admin and user to a dashboard the gate lets them see. */
  lemma ProfileTargetIsAdmitted(p: AuthProfile)
    requires p.status == Active && p.role in {AdminPusat, AdminRegional, User}
    ensures var ctx := AuthContextValue(true, Some(p), false);
            RouteTable.Visit(false, true, Some(p), DashboardFromProfile(ctx)).Render?
  {
    if p.role == AdminPusat {
      RouteTable.CentralLocation();
    } else if p.role == AdminRegional {
      RouteTable.RegionalLocation();
    } else {
      RouteTable.MediaLocation();
    }
  }
}
