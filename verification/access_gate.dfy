// The two-layer global access gate wrapped around every protected route
// (src/components/auth/ProtectedRoute.tsx). The authentication context's
// asynchronous session listener and profile fetch are not modelled; only what
// they deliver reaches the gate: whether loading is still in progress, whether
// a user session exists, and the access profile if one was found.

module AccessGate {
  import opened Wrappers

  /** The application role enumeration `app_role`. */
  datatype Role = AdminPusat | AdminRegional | AdminFinance | User

  /** The account lifecycle enumeration `account_status`. */
  datatype AccountStatus = Pending | Active | Rejected

  /** The minimal access profile: only the fields the gate needs. */
  datatype AuthProfile = AuthProfile(id: string, role: Role, status: AccountStatus, regionId: Option<string>)

  /** What the gate renders: the spinner, the protected children, or a redirect. */
  datatype Outcome = Loading | Allow | Redirect(to: string)

  const LoginPath: string := "/login"
  const PendingPath: string := "/pending"
  const RejectedPath: string := "/rejected"
  const ForbiddenPath: string := "/403"

  /** `allowedRoles && allowedRoles.length > 0 && !allowedRoles.includes(role)` */
  predicate RoleRejected(allowedRoles: Option<seq<Role>>, role: Role)
  {
    allowedRoles.Some? && |allowedRoles.value| > 0 && role !in allowedRoles.value
  }

  /** The gate's decision: a chain of early returns, the status layer before the role layer. */
  function Gate(isLoading: bool, hasUser: bool, profile: Option<AuthProfile>, pathname: string,
                allowedRoles: Option<seq<Role>>): (o: Outcome)
    ensures o.Redirect? ==> o.to in {LoginPath, PendingPath, RejectedPath, ForbiddenPath}
    ensures o == Loading <==> isLoading
  {
    if isLoading then Loading
    // Layer 1: status gate
    else if !hasUser then Redirect(LoginPath)
    else if profile.None? then Redirect(LoginPath)
    else if profile.value.status == Pending then
      (if pathname == PendingPath then Allow else Redirect(PendingPath))
    else if profile.value.status == Rejected then
      (if pathname == RejectedPath then Allow else Redirect(RejectedPath))
    // Layer 2: role gate
    else if pathname == ForbiddenPath then Allow
    else if RoleRejected(allowedRoles, profile.value.role) then Redirect(ForbiddenPath)
    else Allow
  }

  /** Who may see a protected page, stated declaratively: a signed-in identity with a
      profile, held on its status page while pending or rejected, and once active
      admitted to the forbidden page and to every page whose role list is absent,
      empty or names its role. */
  ghost predicate Admissible(hasUser: bool, profile: Option<AuthProfile>, pathname: string,
                             allowedRoles: Option<seq<Role>>)
  {
    hasUser && profile.Some? &&
    match profile.value.status
    case Pending => pathname == PendingPath
    case Rejected => pathname == RejectedPath
    case Active =>
      pathname == ForbiddenPath || allowedRoles.None? || allowedRoles.value == [] ||
      profile.value.role in allowedRoles.value
  }

  /** Once loading has finished, the gate renders the children exactly for admissible requests. */
  lemma AllowIffAdmissible(hasUser: bool, profile: Option<AuthProfile>, pathname: string,
                           allowedRoles: Option<seq<Role>>)
    ensures Gate(false, hasUser, profile, pathname, allowedRoles) == Allow
            <==> Admissible(hasUser, profile, pathname, allowedRoles)
  {
  }

  /** While loading, nothing else is consulted. */
  lemma LoadingIgnoresEverything(hasUser: bool, profile: Option<AuthProfile>, pathname: string,
                                 allowedRoles: Option<seq<Role>>)
    ensures Gate(true, hasUser, profile, pathname, allowedRoles) == Loading
  {
  }

  /** Without a session the gate always sends the visitor to the login page. */
  lemma NoUserGoesToLogin(profile: Option<AuthProfile>, pathname: string, allowedRoles: Option<seq<Role>>)
    ensures Gate(false, false, profile, pathname, allowedRoles) == Redirect(LoginPath)
  {
  }

  /** A session without a resolvable profile is treated like no session. */
  lemma NoProfileGoesToLogin(pathname: string, allowedRoles: Option<seq<Role>>)
    ensures Gate(false, true, None, pathname, allowedRoles) == Redirect(LoginPath)
  {
  }

  /** A pending identity reaches the pending page and nothing else; its role and the
      route's role list play no part. */
  lemma PendingOnlyReachesPending(p: AuthProfile, pathname: string, allowedRoles: Option<seq<Role>>,
                                  otherRole: Role, otherRoles: Option<seq<Role>>)
    requires p.status == Pending
    ensures Gate(false, true, Some(p), pathname, allowedRoles)
            == (if pathname == PendingPath then Allow else Redirect(PendingPath))
    ensures Gate(false, true, Some(p), pathname, allowedRoles)
            == Gate(false, true, Some(p.(role := otherRole)), pathname, otherRoles)
  {
  }

  /** A rejected identity reaches the rejected page and nothing else. */
  lemma RejectedOnlyReachesRejected(p: AuthProfile, pathname: string, allowedRoles: Option<seq<Role>>,
                                    otherRole: Role, otherRoles: Option<seq<Role>>)
    requires p.status == Rejected
    ensures Gate(false, true, Some(p), pathname, allowedRoles)
            == (if pathname == RejectedPath then Allow else Redirect(RejectedPath))
    ensures Gate(false, true, Some(p), pathname, allowedRoles)
            == Gate(false, true, Some(p.(role := otherRole)), pathname, otherRoles)
  {
  }

  /** Every active identity may see the forbidden page, whatever its role. */
  lemma ActiveAlwaysReachesForbiddenPage(p: AuthProfile, allowedRoles: Option<seq<Role>>)
    requires p.status == Active
    ensures Gate(false, true, Some(p), ForbiddenPath, allowedRoles) == Allow
  {
  }

  /** Past the status layer, a non-empty role list admits exactly its roles and sends
      everyone else to the forbidden page, never to a role's own dashboard. */
  lemma RoleLayer(p: AuthProfile, pathname: string, roles: seq<Role>)
    requires p.status == Active && pathname != ForbiddenPath && |roles| > 0
    ensures Gate(false, true, Some(p), pathname, Some(roles))
            == (if p.role in roles then Allow else Redirect(ForbiddenPath))
  {
  }

  /** Past the status layer, an absent or empty role list admits every role. */
  lemma NoRoleListAdmitsAll(p: AuthProfile, pathname: string, allowedRoles: Option<seq<Role>>)
    requires p.status == Active
    requires allowedRoles.None? || allowedRoles == Some([])
    ensures Gate(false, true, Some(p), pathname, allowedRoles) == Allow
  {
  }
}
