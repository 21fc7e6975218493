// The central admin's settings screen
// (src/components/admin-pusat/AdminPusatPengaturan.tsx): the password form,
// the list of admins split by role, the search for a crew member to promote,
// the promotion and the demotion. The fetches and the crew search query are
// taken as given results; the `user_roles` table the screen writes is modelled
// as a map from user id to role, and a write as succeeding or not.

module AdminPusatPengaturan {
  import opened Wrappers
  import opened AccessGate
  import Seqs

  datatype AdminUser = AdminUser(id: string, userId: string, nama: string, niam: Option<string>,
                                 jabatan: Option<string>, regionId: Option<string>,
                                 regionName: Option<string>, role: Role)

  /** A crew member offered by the search; an empty region id has already become `None`. */
  datatype CrewOption = CrewOption(id: string, profileId: string, nama: string, niam: Option<string>,
                                   jabatan: Option<string>, pesantrenName: Option<string>,
                                   regionId: Option<string>, regionName: Option<string>)

  datatype RegionItem = RegionItem(id: string, name: string)

  /** The text and classes of a role badge. */
  datatype Badge = Badge(text: string, classes: string)

  /** `getRoleBadge(role)` */
  function RoleBadge(role: Role): (b: Badge)
    ensures b.text == "Admin Pusat" <==> role == AdminPusat
    ensures b.text == "Admin Regional" <==> role == AdminRegional
    ensures b.text == "Admin Finance" <==> role == AdminFinance
    ensures b.text == "User" <==> role == User
  {
    match role
    case AdminPusat => Badge("Admin Pusat", "bg-purple-100 text-purple-800 hover:bg-purple-100")
    case AdminRegional => Badge("Admin Regional", "bg-blue-100 text-blue-800 hover:bg-blue-100")
    case AdminFinance => Badge("Admin Finance", "bg-emerald-100 text-emerald-800 hover:bg-emerald-100")
    case User => Badge("User", "bg-slate-100 text-slate-800 hover:bg-slate-100")
  }

  /** The shortest query that is searched. */
  const MinQueryLength: nat := 2

  /** Whether some listed admin has the user id `profileId`. */
  predicate IsAdmin(admins: seq<AdminUser>, profileId: string)
  {
    exists i :: 0 <= i < |admins| && admins[i].userId == profileId
  }

  /** The search results without the crew members who are already admins, in result order. */
  function NotYetAdmins(results: seq<CrewOption>, admins: seq<AdminUser>): (r: seq<CrewOption>)
    ensures forall c :: c in r <==> c in results && !IsAdmin(admins, c.profileId)
    ensures |r| == Seqs.CountIf(results, (c: CrewOption) => !IsAdmin(admins, c.profileId))
    ensures Seqs.IsSubsequence(r, results)
  {
    var keep := (c: CrewOption) => !IsAdmin(admins, c.profileId);
    Seqs.FilterMembers(results, keep);
    Seqs.FilterLength(results, keep);
    Seqs.FilterIsSubsequence(results, keep);
    Seqs.Filter(results, keep)
  }

  /** The admins listed under "Admin Pusat". */
  function CentralAdmins(admins: seq<AdminUser>): (r: seq<AdminUser>)
    ensures forall a :: a in r <==> a in admins && a.role == AdminPusat
    ensures |r| == Seqs.CountIf(admins, (a: AdminUser) => a.role == AdminPusat)
    ensures Seqs.IsSubsequence(r, admins)
  {
    var keep := (a: AdminUser) => a.role == AdminPusat;
    Seqs.FilterMembers(admins, keep);
    Seqs.FilterLength(admins, keep);
    Seqs.FilterIsSubsequence(admins, keep);
    Seqs.Filter(admins, keep)
  }

  /** The admins listed under "Admin Regional". */
  function RegionalAdmins(admins: seq<AdminUser>): (r: seq<AdminUser>)
    ensures forall a :: a in r <==> a in admins && a.role == AdminRegional
    ensures |r| == Seqs.CountIf(admins, (a: AdminUser) => a.role == AdminRegional)
    ensures Seqs.IsSubsequence(r, admins)
  {
    var keep := (a: AdminUser) => a.role == AdminRegional;
    Seqs.FilterMembers(admins, keep);
    Seqs.FilterLength(admins, keep);
    Seqs.FilterIsSubsequence(admins, keep);
    Seqs.Filter(admins, keep)
  }

  /** The two lists never share an admin, and a finance admin is in neither: the screen
      shows every admin it fetched only when none of them is a finance admin. */
  lemma {:induction false} RoleLists(admins: seq<AdminUser>)
    ensures forall a :: !(a in CentralAdmins(admins) && a in RegionalAdmins(admins))
    ensures forall a :: a in admins && a.role == AdminFinance ==>
              a !in CentralAdmins(admins) && a !in RegionalAdmins(admins)
    ensures |CentralAdmins(admins)| + |RegionalAdmins(admins)| ==
              |admins| - Seqs.CountIf(admins, (a: AdminUser) => a.role == AdminFinance || a.role == User)
  {
    var central := (a: AdminUser) => a.role == AdminPusat;
    var regional := (a: AdminUser) => a.role == AdminRegional;
    var rest := (a: AdminUser) => a.role == AdminFinance || a.role == User;
    Seqs.FilterLength(admins, central);
    Seqs.FilterLength(admins, regional);
    RoleCounts(admins, central, regional, rest);
  }

  /** The three role counts add up to the length of the list. */
  lemma {:induction false} RoleCounts(admins: seq<AdminUser>, central: AdminUser -> bool,
                                      regional: AdminUser -> bool, rest: AdminUser -> bool)
    requires forall a :: central(a) <==> a.role == AdminPusat
    requires forall a :: regional(a) <==> a.role == AdminRegional
    requires forall a :: rest(a) <==> a.role == AdminFinance || a.role == User
    ensures Seqs.CountIf(admins, central) + Seqs.CountIf(admins, regional) + Seqs.CountIf(admins, rest) == |admins|
  {
    if admins != [] {
      var last := |admins| - 1;
      RoleCounts(admins[..last], central, regional, rest);
      assert admins == admins[..last] + [admins[last]];
      Seqs.CountConcat(admins[..last], [admins[last]], central);
      Seqs.CountConcat(admins[..last], [admins[last]], regional);
      Seqs.CountConcat(admins[..last], [admins[last]], rest);
    }
  }

  /** The `user_roles` upsert on `user_id`: the user's row holds the role, every other row
      is as it was. */
  function Upsert(roles: map<string, Role>, userId: string, role: Role): (after: map<string, Role>)
    ensures userId in after && after[userId] == role
    ensures forall u :: u != userId ==> (u in after <==> u in roles) && (u in roles ==> after[u] == roles[u])
  {
    roles[userId := role]
  }

  /** The `user_roles` update of `user_id` to "user": a present row becomes a user's, and a
      missing one stays missing. */
  function Demote(roles: map<string, Role>, userId: string): (after: map<string, Role>)
    ensures after.Keys == roles.Keys
    ensures userId in roles ==> after[userId] == User
    ensures forall u :: u in roles && u != userId ==> after[u] == roles[u]
  {
    if userId in roles then roles[userId := User] else roles
  }

  /** Promoting and then removing an admin leaves the user with the user role, whatever
      they were before. */
  lemma PromoteThenRemove(roles: map<string, Role>, userId: string, role: Role)
    ensures Demote(Upsert(roles, userId, role), userId) == roles[userId := User]
  {
  }

  datatype PasswordOutcome = MissingField | ComingSoon

  datatype AddOutcome = NoCrew | NoRegion | AddFailed | Added

  datatype RemoveOutcome = NoTarget | RemoveFailed | Removed

  class SettingsPage {
    var currentPassword: string
    var newPassword: string
    var adminList: seq<AdminUser>
    var regions: seq<RegionItem>
    var loading: bool
    var addDialogOpen: bool
    var crewSearchQuery: string
    var crewOptions: seq<CrewOption>
    var selectedCrew: Option<CrewOption>
    var selectedRole: Role
    var selectedRegion: string
    var deleteTarget: Option<AdminUser>

    /** The screen as it mounts: empty forms, no lists yet, the regional admin role chosen. */
    constructor()
      ensures currentPassword == "" && newPassword == ""
      ensures adminList == [] && regions == [] && loading
      ensures !addDialogOpen && crewSearchQuery == "" && crewOptions == [] && selectedCrew.None?
      ensures selectedRole == AdminRegional && selectedRegion == "" && deleteTarget.None?
    {
      currentPassword := "";
      newPassword := "";
      adminList := [];
      regions := [];
      loading := true;
      addDialogOpen := false;
      crewSearchQuery := "";
      crewOptions := [];
      selectedCrew := None;
      selectedRole := AdminRegional;
      selectedRegion := "";
      deleteTarget := None;
    }

    /** `fetchData()`: the admin list is replaced only when some admin role row was found;
        the regions are replaced when their query returned rows. */
    method Load(rolesFound: bool, admins: seq<AdminUser>, fetchedRegions: Option<seq<RegionItem>>)
      modifies this
      ensures adminList == (if rolesFound then admins else old(adminList))
      ensures regions == (if fetchedRegions.Some? then fetchedRegions.value else old(regions))
      ensures !loading
      ensures currentPassword == old(currentPassword) && newPassword == old(newPassword)
      ensures addDialogOpen == old(addDialogOpen) && crewSearchQuery == old(crewSearchQuery)
      ensures crewOptions == old(crewOptions) && selectedCrew == old(selectedCrew)
      ensures selectedRole == old(selectedRole) && selectedRegion == old(selectedRegion)
      ensures deleteTarget == old(deleteTarget)
    {
      if rolesFound {
        adminList := admins;
      }
      if fetchedRegions.Some? {
        regions := fetchedRegions.value;
      }
      loading := false;
    }

    method EditPasswords(current: string, next: string)
      modifies this
      ensures currentPassword == current && newPassword == next
      ensures adminList == old(adminList) && addDialogOpen == old(addDialogOpen)
      ensures selectedCrew == old(selectedCrew) && deleteTarget == old(deleteTarget)
      ensures regions == old(regions) && loading == old(loading)
      ensures crewSearchQuery == old(crewSearchQuery) && crewOptions == old(crewOptions)
      ensures selectedRole == old(selectedRole) && selectedRegion == old(selectedRegion)
    {
      currentPassword := current;
      newPassword := next;
    }

    /** `handleChangePassword()`: an empty field is refused; otherwise nothing is changed
        but both fields are emptied. */
    method HandleChangePassword() returns (outcome: PasswordOutcome)
      modifies this
      ensures outcome == MissingField <==> old(currentPassword) == "" || old(newPassword) == ""
      ensures outcome == MissingField ==> currentPassword == old(currentPassword) && newPassword == old(newPassword)
      ensures outcome == ComingSoon ==> currentPassword == "" && newPassword == ""
      ensures adminList == old(adminList) && addDialogOpen == old(addDialogOpen)
      ensures selectedCrew == old(selectedCrew) && deleteTarget == old(deleteTarget)
      ensures regions == old(regions) && loading == old(loading)
      ensures crewSearchQuery == old(crewSearchQuery) && crewOptions == old(crewOptions)
      ensures selectedRole == old(selectedRole) && selectedRegion == old(selectedRegion)
    {
      if currentPassword == "" || newPassword == "" {
        return MissingField;
      }
      currentPassword := "";
      newPassword := "";
      return ComingSoon;
    }

    method OpenAddDialog()
      modifies this
      ensures addDialogOpen
      ensures selectedCrew == old(selectedCrew) && crewSearchQuery == old(crewSearchQuery)
      ensures crewOptions == old(crewOptions) && adminList == old(adminList)
      ensures currentPassword == old(currentPassword) && newPassword == old(newPassword)
      ensures regions == old(regions) && loading == old(loading)
      ensures selectedRole == old(selectedRole) && selectedRegion == old(selectedRegion)
      ensures deleteTarget == old(deleteTarget)
    {
      addDialogOpen := true;
    }

    /** Typing in the crew search box, with the rows the name search returns: a query
        shorter than two characters empties the offers without searching; otherwise the
        offers are the results that are not admins yet. */
    method TypeCrewQuery(query: string, results: seq<CrewOption>)
      modifies this
      ensures crewSearchQuery == query
      ensures |query| < MinQueryLength ==> crewOptions == []
      ensures |query| >= MinQueryLength ==> crewOptions == NotYetAdmins(results, adminList)
      ensures forall c :: c in crewOptions ==> !IsAdmin(adminList, c.profileId)
      ensures adminList == old(adminList) && selectedCrew == old(selectedCrew)
      ensures selectedRole == old(selectedRole) && selectedRegion == old(selectedRegion)
      ensures addDialogOpen == old(addDialogOpen) && deleteTarget == old(deleteTarget)
      ensures currentPassword == old(currentPassword) && newPassword == old(newPassword)
      ensures regions == old(regions) && loading == old(loading)
    {
      crewSearchQuery := query;
      if |query| < MinQueryLength {
        crewOptions := [];
        return;
      }
      crewOptions := NotYetAdmins(results, adminList);
    }

    /** Clicking an offered crew member selects it, shows its name in the search box, closes
        the offers, and takes its region when it has one. */
    method PickCrew(crew: CrewOption)
      requires crew in crewOptions
      modifies this
      ensures selectedCrew == Some(crew) && crewSearchQuery == crew.nama && crewOptions == []
      ensures selectedRegion == (if crew.regionId.Some? && crew.regionId.value != "" then crew.regionId.value
                                 else old(selectedRegion))
      ensures selectedRole == old(selectedRole) && adminList == old(adminList)
      ensures addDialogOpen == old(addDialogOpen) && deleteTarget == old(deleteTarget)
      ensures currentPassword == old(currentPassword) && newPassword == old(newPassword)
      ensures regions == old(regions) && loading == old(loading)
    {
      selectedCrew := Some(crew);
      crewSearchQuery := crew.nama;
      crewOptions := [];
      if crew.regionId.Some? && crew.regionId.value != "" {
        selectedRegion := crew.regionId.value;
      }
    }

    /** The role select: it offers the regional, finance and central admin roles only. */
    method ChooseRole(role: Role)
      requires role != User
      modifies this
      ensures selectedRole == role && selectedRegion == old(selectedRegion) && selectedCrew == old(selectedCrew)
      ensures adminList == old(adminList) && addDialogOpen == old(addDialogOpen)
      ensures currentPassword == old(currentPassword) && newPassword == old(newPassword)
      ensures regions == old(regions) && loading == old(loading)
      ensures crewSearchQuery == old(crewSearchQuery) && crewOptions == old(crewOptions)
      ensures deleteTarget == old(deleteTarget)
    {
      selectedRole := role;
    }

    method ChooseRegion(regionId: string)
      modifies this
      ensures selectedRegion == regionId && selectedRole == old(selectedRole) && selectedCrew == old(selectedCrew)
      ensures adminList == old(adminList) && addDialogOpen == old(addDialogOpen)
      ensures currentPassword == old(currentPassword) && newPassword == old(newPassword)
      ensures regions == old(regions) && loading == old(loading)
      ensures crewSearchQuery == old(crewSearchQuery) && crewOptions == old(crewOptions)
      ensures deleteTarget == old(deleteTarget)
    {
      selectedRegion := regionId;
    }

    /** The dialog's cancel button: closes it and forgets the crew search and selection. */
    method CancelAddDialog()
      modifies this
      ensures !addDialogOpen && selectedCrew.None? && crewSearchQuery == "" && crewOptions == []
      ensures selectedRole == old(selectedRole) && selectedRegion == old(selectedRegion)
      ensures adminList == old(adminList) && deleteTarget == old(deleteTarget)
      ensures currentPassword == old(currentPassword) && newPassword == old(newPassword)
      ensures regions == old(regions) && loading == old(loading)
    {
      addDialogOpen := false;
      selectedCrew := None;
      crewSearchQuery := "";
      crewOptions := [];
    }

    /** `handleAddAdmin()` against the `user_roles` table, with whether the upsert succeeded:
        a missing crew member is refused, then a regional admin without a region; otherwise
        the crew member's role row is written and the dialog closed and emptied. The chosen
        region itself is not written. */
    method HandleAddAdmin(roles: map<string, Role>, writeOk: bool) returns (outcome: AddOutcome, after: map<string, Role>)
      modifies this
      ensures outcome == NoCrew <==> old(selectedCrew).None?
      ensures outcome == NoRegion <==>
                old(selectedCrew).Some? && old(selectedRole) == AdminRegional && old(selectedRegion) == ""
      ensures outcome == AddFailed <==> outcome !in {NoCrew, NoRegion} && !writeOk
      ensures outcome == Added ==>
                after == Upsert(roles, old(selectedCrew).value.profileId, old(selectedRole)) &&
                !addDialogOpen && selectedCrew.None? && crewSearchQuery == "" && crewOptions == []
      ensures outcome != Added ==>
                after == roles && addDialogOpen == old(addDialogOpen) && selectedCrew == old(selectedCrew) &&
                crewSearchQuery == old(crewSearchQuery) && crewOptions == old(crewOptions)
      ensures selectedRole == old(selectedRole) && selectedRegion == old(selectedRegion)
      ensures adminList == old(adminList) && deleteTarget == old(deleteTarget)
      ensures currentPassword == old(currentPassword) && newPassword == old(newPassword)
      ensures regions == old(regions) && loading == old(loading)
    {
      after := roles;
      if selectedCrew.None? {
        return NoCrew, after;
      }
      if selectedRole == AdminRegional && selectedRegion == "" {
        return NoRegion, after;
      }
      if !writeOk {
        return AddFailed, after;
      }
      after := Upsert(roles, selectedCrew.value.profileId, selectedRole);
      addDialogOpen := false;
      selectedCrew := None;
      crewSearchQuery := "";
      crewOptions := [];
      return Added, after;
    }

    /** A listed admin's remove button asks for confirmation of that admin. */
    method AskRemove(admin: AdminUser)
      modifies this
      ensures deleteTarget == Some(admin)
      ensures adminList == old(adminList) && addDialogOpen == old(addDialogOpen) && selectedCrew == old(selectedCrew)
      ensures currentPassword == old(currentPassword) && newPassword == old(newPassword)
      ensures regions == old(regions) && loading == old(loading)
      ensures crewSearchQuery == old(crewSearchQuery) && crewOptions == old(crewOptions)
      ensures selectedRole == old(selectedRole) && selectedRegion == old(selectedRegion)
    {
      deleteTarget := Some(admin);
    }

    /** Closing the confirmation without removing. */
    method CancelRemove()
      modifies this
      ensures deleteTarget.None?
      ensures adminList == old(adminList) && addDialogOpen == old(addDialogOpen) && selectedCrew == old(selectedCrew)
      ensures currentPassword == old(currentPassword) && newPassword == old(newPassword)
      ensures regions == old(regions) && loading == old(loading)
      ensures crewSearchQuery == old(crewSearchQuery) && crewOptions == old(crewOptions)
      ensures selectedRole == old(selectedRole) && selectedRegion == old(selectedRegion)
    {
      deleteTarget := None;
    }

    /** `handleRemoveAdmin()` against the `user_roles` table, with whether the update
        succeeded: the confirmed admin's row becomes a user's and the target is cleared. A failed
        write keeps the target; the dialog's action button closes it, which `CancelRemove` models. */
    method HandleRemoveAdmin(roles: map<string, Role>, writeOk: bool) returns (outcome: RemoveOutcome, after: map<string, Role>)
      modifies this
      ensures outcome == NoTarget <==> old(deleteTarget).None?
      ensures outcome == RemoveFailed <==> old(deleteTarget).Some? && !writeOk
      ensures outcome == Removed ==> after == Demote(roles, old(deleteTarget).value.userId) && deleteTarget.None?
      ensures outcome != Removed ==> after == roles && deleteTarget == old(deleteTarget)
      ensures adminList == old(adminList) && addDialogOpen == old(addDialogOpen) && selectedCrew == old(selectedCrew)
      ensures selectedRole == old(selectedRole) && selectedRegion == old(selectedRegion)
      ensures currentPassword == old(currentPassword) && newPassword == old(newPassword)
      ensures regions == old(regions) && loading == old(loading)
      ensures crewSearchQuery == old(crewSearchQuery) && crewOptions == old(crewOptions)
    {
      after := roles;
      if deleteTarget.None? {
        return NoTarget, after;
      }
      if !writeOk {
        return RemoveFailed, after;
      }
      after := Demote(roles, deleteTarget.value.userId);
      deleteTarget := None;
      return Removed, after;
    }
  }
}
