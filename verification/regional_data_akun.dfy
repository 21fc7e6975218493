// The central admin's regional accounts screen
// (src/pages/admin-pusat/RegionalDataAkun.tsx): the fetched users and regions,
// each region shown with how many cities it covers and how many regional
// admins it has, the user search, and the assignment of a user as a region's
// admin. The three fetches and the role upsert are taken as given inputs; the
// outcome of the profile update that follows the upsert is only logged by the
// screen, and is ignored here too.

module RegionalDataAkun {
  import opened Wrappers
  import opened AccessGate
  import Js
  import Seqs

  datatype UserData = UserData(id: string, namaPesantren: Option<string>, namaPengasuh: Option<string>,
                               regionId: Option<string>, regionName: Option<string>, role: Role,
                               statusAccount: string)

  /** A region as fetched. */
  datatype RegionRow = RegionRow(id: string, name: string, code: string)

  /** A region as shown, with its two counts. */
  datatype Region = Region(id: string, name: string, code: string, cityCount: nat, adminCount: nat)

  // ---------------------------------------------------------------------------
  // The two count maps

  /** `map[key] || 0` */
  function Get(m: map<string, nat>, key: string): nat
  {
    if key in m then m[key] else 0
  }

  /** How many of the fetched cities name `regionId` as their region. */
  function CityCount(cityRegionIds: seq<string>, regionId: string): (n: nat)
    ensures n <= |cityRegionIds|
  {
    if cityRegionIds == [] then 0
    else
      var last := |cityRegionIds| - 1;
      CityCount(cityRegionIds[..last], regionId) + (if cityRegionIds[last] == regionId then 1 else 0)
  }

  /** A regional admin with a (non-empty) region counts for that region. */
  predicate AdminOf(u: UserData, regionId: string)
  {
    u.role == AdminRegional && u.regionId == Some(regionId) && regionId != ""
  }

  /** How many of the users are regional admins of `regionId`. */
  function AdminCount(users: seq<UserData>, regionId: string): (n: nat)
    ensures n <= |users|
  {
    if users == [] then 0
    else
      var last := |users| - 1;
      AdminCount(users[..last], regionId) + (if AdminOf(users[last], regionId) then 1 else 0)
  }

  /** `cityCountMap`: one pass over the cities, adding one to the entry of each city's region. */
  method CityCountMap(cityRegionIds: seq<string>) returns (m: map<string, nat>)
    ensures forall id :: Get(m, id) == CityCount(cityRegionIds, id)
  {
    m := map[];
    var i := 0;
    while i < |cityRegionIds|
      invariant 0 <= i <= |cityRegionIds|
      invariant forall id :: Get(m, id) == CityCount(cityRegionIds[..i], id)
    {
      var regionId := cityRegionIds[i];
      assert cityRegionIds[..i + 1][..i] == cityRegionIds[..i];
      m := m[regionId := Get(m, regionId) + 1];
      i := i + 1;
    }
    assert cityRegionIds[..i] == cityRegionIds;
  }

  /** `adminCountMap`: one pass over the users, adding one to the entry of the region of each
      regional admin that has a region. */
  method AdminCountMap(users: seq<UserData>) returns (m: map<string, nat>)
    ensures forall id :: Get(m, id) == AdminCount(users, id)
  {
    m := map[];
    var i := 0;
    while i < |users|
      invariant 0 <= i <= |users|
      invariant forall id :: Get(m, id) == AdminCount(users[..i], id)
    {
      var u := users[i];
      assert users[..i + 1][..i] == users[..i];
      if u.role == AdminRegional && u.regionId.Some? && u.regionId.value != "" {
        m := m[u.regionId.value := Get(m, u.regionId.value) + 1];
      }
      i := i + 1;
    }
    assert users[..i] == users;
  }

  /** The regions as shown after the fetch: each fetched region, in order, with its two counts. */
  method ShownRegions(rows: seq<RegionRow>, cityRegionIds: seq<string>, users: seq<UserData>)
    returns (regions: seq<Region>)
    ensures |regions| == |rows|
    ensures forall i :: 0 <= i < |rows| ==>
              regions[i] == Region(rows[i].id, rows[i].name, rows[i].code,
                                   CityCount(cityRegionIds, rows[i].id), AdminCount(users, rows[i].id))
  {
    var cityCounts := CityCountMap(cityRegionIds);
    var adminCounts := AdminCountMap(users);
    regions := seq(|rows|, i requires 0 <= i < |rows| =>
      Region(rows[i].id, rows[i].name, rows[i].code, Get(cityCounts, rows[i].id), Get(adminCounts, rows[i].id)));
  }

  // ---------------------------------------------------------------------------
  // The user search

  /** `name?.toLowerCase().includes(query.toLowerCase())`: an absent name never matches. */
  predicate NameMatches(name: Option<string>, query: string)
  {
    name.Some? && Js.Contains(Js.Lower(name.value), Js.Lower(query))
  }

  /** Only users and regional admins can be made a region's admin. */
  predicate Promotable(u: UserData)
  {
    u.role == User || u.role == AdminRegional
  }

  predicate Listed(u: UserData, query: string)
  {
    (query == "" || NameMatches(u.namaPesantren, query) || NameMatches(u.namaPengasuh, query)) && Promotable(u)
  }

  /** `filteredUsers` */
  function FilteredUsers(users: seq<UserData>, query: string): (r: seq<UserData>)
    ensures forall u :: u in r <==> u in users && Listed(u, query)
    ensures query == "" ==> forall u :: u in r <==> u in users && Promotable(u)
    ensures |r| == Seqs.CountIf(users, (u: UserData) => Listed(u, query))
    ensures Seqs.IsSubsequence(r, users)
  {
    var keep := (u: UserData) => Listed(u, query);
    Seqs.FilterMembers(users, keep);
    Seqs.FilterLength(users, keep);
    Seqs.FilterIsSubsequence(users, keep);
    Seqs.Filter(users, keep)
  }

  // ---------------------------------------------------------------------------
  // Assignment

  /** `regions.find(r => r.id === id)` */
  function FindRegion(regions: seq<Region>, id: string): (r: Option<Region>)
    ensures r.Some? ==> r.value in regions && r.value.id == id
    ensures r.None? <==> forall i :: 0 <= i < |regions| ==> regions[i].id != id
  {
    if regions == [] then None
    else if regions[0].id == id then Some(regions[0])
    else FindRegion(regions[1..], id)
  }

  /** The user list after an assignment: every entry with the user's id becomes a regional
      admin of the region; the others are unchanged. */
  function AssignUsers(users: seq<UserData>, userId: string, region: Region): (r: seq<UserData>)
    ensures |r| == |users|
    ensures forall i :: 0 <= i < |users| && users[i].id == userId ==>
              r[i] == users[i].(role := AdminRegional, regionId := Some(region.id), regionName := Some(region.name))
    ensures forall i :: 0 <= i < |users| && users[i].id != userId ==> r[i] == users[i]
  {
    seq(|users|, i requires 0 <= i < |users| =>
      if users[i].id == userId
      then users[i].(role := AdminRegional, regionId := Some(region.id), regionName := Some(region.name))
      else users[i])
  }

  /** The region list after an assignment: the chosen region's admin count goes up by one. */
  function BumpAdminCount(regions: seq<Region>, regionId: string): (r: seq<Region>)
    ensures |r| == |regions|
    ensures forall i :: 0 <= i < |regions| && regions[i].id == regionId ==>
              r[i] == regions[i].(adminCount := regions[i].adminCount + 1)
    ensures forall i :: 0 <= i < |regions| && regions[i].id != regionId ==> r[i] == regions[i]
  {
    seq(|regions|, i requires 0 <= i < |regions| =>
      if regions[i].id == regionId then regions[i].(adminCount := regions[i].adminCount + 1) else regions[i])
  }

  /** How an assignment ends. */
  datatype AssignOutcome = NoUserSelected | NoRegionChosen | RegionNotFound | Declined | Failed | Assigned

  class RegionalAccountsPage {
    var userList: seq<UserData>
    var regions: seq<Region>
    var searchQuery: string
    var selectedUser: Option<UserData>
    var selectedRegion: string
    var dialogOpen: bool

    constructor()
      ensures userList == [] && regions == [] && searchQuery == ""
      ensures selectedUser == None && selectedRegion == "" && !dialogOpen
    {
      userList := [];
      regions := [];
      searchQuery := "";
      selectedUser := None;
      selectedRegion := "";
      dialogOpen := false;
    }

    /** `fetchData()` with the three query results, each `None` when its query returned no
        rows object: the users as fetched, and the regions with their counts, a missing
        city or user list counting nothing. A missing list leaves the shown one as it was. */
    method Load(users: Option<seq<UserData>>, rows: Option<seq<RegionRow>>, cityRegionIds: Option<seq<string>>)
      modifies this
      ensures userList == (if users.Some? then users.value else old(userList))
      ensures rows.None? ==> regions == old(regions)
      ensures rows.Some? ==>
                var fetchedUsers := if users.Some? then users.value else [];
                var fetchedCities := if cityRegionIds.Some? then cityRegionIds.value else [];
                |regions| == |rows.value| &&
                forall i :: 0 <= i < |rows.value| ==>
                  regions[i] == Region(rows.value[i].id, rows.value[i].name, rows.value[i].code,
                                       CityCount(fetchedCities, rows.value[i].id),
                                       AdminCount(fetchedUsers, rows.value[i].id))
      ensures searchQuery == old(searchQuery) && selectedUser == old(selectedUser)
      ensures selectedRegion == old(selectedRegion) && dialogOpen == old(dialogOpen)
    {
      if users.Some? {
        userList := users.value;
      }
      if rows.Some? {
        var fetchedUsers := if users.Some? then users.value else [];
        var fetchedCities := if cityRegionIds.Some? then cityRegionIds.value else [];
        regions := ShownRegions(rows.value, fetchedCities, fetchedUsers);
      }
    }

    /** `handleOpenAssignDialog(user)`: the user, preselecting the region they already have. */
    method OpenAssignDialog(user: UserData)
      modifies this
      ensures selectedUser == Some(user) && dialogOpen
      ensures selectedRegion == if user.regionId.Some? then user.regionId.value else ""
      ensures userList == old(userList) && regions == old(regions) && searchQuery == old(searchQuery)
    {
      selectedUser := Some(user);
      selectedRegion := if user.regionId.Some? then user.regionId.value else "";
      dialogOpen := true;
    }

    method ChooseRegion(regionId: string)
      modifies this
      ensures selectedRegion == regionId && selectedUser == old(selectedUser) && dialogOpen == old(dialogOpen)
      ensures userList == old(userList) && regions == old(regions) && searchQuery == old(searchQuery)
    {
      selectedRegion := regionId;
    }

    /** `handleAssignAdmin()`, with the answer `proceed` to the confirmation asked for a
        region without cities and whether the role upsert succeeded. The checks come in
        order: a selected user, a chosen region, a region in the list, the confirmation;
        on success the user becomes the region's admin and the region's admin count goes
        up by one, whether or not the profile update that follows succeeded. */
    method HandleAssignAdmin(proceed: bool, upsertOk: bool, profileUpdateOk: bool) returns (outcome: AssignOutcome)
      modifies this
      ensures old(selectedUser).None? <==> outcome == NoUserSelected
      ensures outcome == NoRegionChosen <==> old(selectedUser).Some? && old(selectedRegion) == ""
      ensures outcome == RegionNotFound <==>
                old(selectedUser).Some? && old(selectedRegion) != "" && FindRegion(old(regions), old(selectedRegion)).None?
      ensures outcome == Declined <==>
                old(selectedUser).Some? && old(selectedRegion) != "" && FindRegion(old(regions), old(selectedRegion)).Some? &&
                FindRegion(old(regions), old(selectedRegion)).value.cityCount == 0 && !proceed
      ensures outcome == Assigned ==>
                var region := FindRegion(old(regions), old(selectedRegion)).value;
                upsertOk &&
                userList == AssignUsers(old(userList), old(selectedUser).value.id, region) &&
                regions == BumpAdminCount(old(regions), old(selectedRegion)) && !dialogOpen
      ensures outcome != Assigned ==>
                userList == old(userList) && regions == old(regions) && dialogOpen == old(dialogOpen)
      ensures outcome == Failed ==> !upsertOk
      ensures selectedUser == old(selectedUser) && selectedRegion == old(selectedRegion)
      ensures searchQuery == old(searchQuery)
    {
      if selectedUser.None? {
        return NoUserSelected;
      }
      if selectedRegion == "" {
        return NoRegionChosen;
      }
      var region := FindRegion(regions, selectedRegion);
      if region.None? {
        return RegionNotFound;
      }
      if region.value.cityCount == 0 && !proceed {
        return Declined;
      }
      if !upsertOk {
        return Failed;
      }
      userList := AssignUsers(userList, selectedUser.value.id, region.value);
      regions := BumpAdminCount(regions, selectedRegion);
      dialogOpen := false;
      return Assigned;
    }
  }

  /** Counting the admins of a region `other` than the one assigned: entries of the assigned
      user that were its admins stop counting, and nothing else changes, so the count never
      goes up. */
  lemma {:induction false} AssignNeverRaisesOtherCount(users: seq<UserData>, userId: string, region: Region, other: string)
    requires other != region.id
    ensures AdminCount(AssignUsers(users, userId, region), other) <= AdminCount(users, other)
  {
    if users != [] {
      AssignPrefix(users, userId, region);
      AssignNeverRaisesOtherCount(users[..|users| - 1], userId, region, other);
      AssignedLast(users, userId, region, other);
      CountLast(users, other);
      CountLast(AssignUsers(users, userId, region), other);
    }
  }

  /** ... and it goes down when the assigned user was an admin of `other`. */
  lemma {:induction false} AssignLowersOtherCount(users: seq<UserData>, userId: string, region: Region, other: string, i: nat)
    requires other != region.id
    requires i < |users| && users[i].id == userId && AdminOf(users[i], other)
    ensures AdminCount(AssignUsers(users, userId, region), other) < AdminCount(users, other)
  {
    var last := |users| - 1;
    var prefix := users[..last];
    AssignPrefix(users, userId, region);
    AssignedLast(users, userId, region, other);
    CountLast(users, other);
    CountLast(AssignUsers(users, userId, region), other);
    if i < last {
      assert prefix[i] == users[i];
      AssignLowersOtherCount(prefix, userId, region, other, i);
    } else {
      AssignNeverRaisesOtherCount(prefix, userId, region, other);
    }
  }

  /** Assigning in all users and then dropping the last is assigning in the others. */
  lemma AssignPrefix(users: seq<UserData>, userId: string, region: Region)
    requires users != []
    ensures AssignUsers(users[..|users| - 1], userId, region) == AssignUsers(users, userId, region)[..|users| - 1]
  {
  }

  /** One step of `AdminCount`. */
  lemma CountLast(users: seq<UserData>, regionId: string)
    requires users != []
    ensures AdminCount(users, regionId) ==
              AdminCount(users[..|users| - 1], regionId) + (if AdminOf(users[|users| - 1], regionId) then 1 else 0)
  {
  }

  /** The last user, after an assignment to a region other than `other`, is an admin of
      `other` only if it was one before, and not at all if it was the assigned user. */
  lemma AssignedLast(users: seq<UserData>, userId: string, region: Region, other: string)
    requires users != [] && other != region.id
    ensures var after := AssignUsers(users, userId, region);
            var last := |users| - 1;
            (AdminOf(after[last], other) ==> AdminOf(users[last], other)) &&
            (users[last].id == userId ==> !AdminOf(after[last], other))
  {
  }

  /** Moving a regional admin to another region leaves the old region's shown admin count as
      it was, although it now has fewer admins: once the counts agreed, they no longer do. */
  lemma ReassignKeepsOldCount(regions: seq<Region>, users: seq<UserData>, k: nat, i: nat, target: Region)
    requires k < |regions| && i < |users|
    requires regions[k].id != target.id && AdminOf(users[i], regions[k].id)
    requires regions[k].adminCount == AdminCount(users, regions[k].id)
    ensures BumpAdminCount(regions, target.id)[k].adminCount == regions[k].adminCount
    ensures AdminCount(AssignUsers(users, users[i].id, target), regions[k].id) < regions[k].adminCount
  {
    AssignLowersOtherCount(users, users[i].id, target, regions[k].id, i);
  }
}
