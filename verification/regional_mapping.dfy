// The central admin's regional mapping screen
// (src/pages/admin-pusat/RegionalMapping.tsx): regions, the cities each region
// covers, and the selected region whose cities are listed. The database
// insert and delete calls are taken as given results (the id of the inserted
// row, or a failure) and each browser confirmation as the user's answer; the
// rows the inserts return are taken to be the values sent with the new id.

module RegionalMapping {
  import opened Wrappers
  import Js
  import Seqs

  datatype Region = Region(id: string, name: string, code: string)
  datatype City = City(id: string, name: string, regionId: string)

  /** The region inserted for the dialog's name and code: the name trimmed, the code
      trimmed and in capitals. */
  function NewRegion(id: string, name: string, code: string): (r: Region)
  {
    Region(id, Js.Trim(name), Js.Upper(Js.Trim(code)))
  }

  /** A region added from names that do not trim to nothing has a non-empty name and code
      with no whitespace at either end. */
  lemma NewRegionShape(id: string, name: string, code: string)
    requires !Js.AllWhitespace(name) && !Js.AllWhitespace(code)
    ensures var r := NewRegion(id, name, code);
            r.name != "" && !Js.IsWhitespace(r.name[0]) && !Js.IsWhitespace(r.name[|r.name| - 1]) &&
            r.code != "" && |r.code| <= |code|
  {
    Js.TrimEmptyIff(name);
    Js.TrimEmptyIff(code);
    Js.TrimShape(name);
    Js.TrimShape(code);
  }

  /** The city inserted into a region. */
  function NewCity(id: string, name: string, region: Region): (c: City)
    ensures c.id == id && c.name == Js.Trim(name) && c.regionId == region.id
  {
    City(id, Js.Trim(name), region.id)
  }

  /** `filteredCities`: nothing without a selected region, otherwise that region's cities
      in list order. */
  function FilteredCities(cities: seq<City>, selected: Option<Region>): (r: seq<City>)
    ensures selected.None? ==> r == []
    ensures selected.Some? ==> r == Seqs.Filter(cities, (c: City) => c.regionId == selected.value.id)
    ensures selected.Some? ==> forall c :: c in r <==> c in cities && c.regionId == selected.value.id
  {
    if selected.None? then []
    else
      var keep := (c: City) => c.regionId == selected.value.id;
      Seqs.FilterMembers(cities, keep);
      Seqs.Filter(cities, keep)
  }

  /** Every city belongs to a listed region. */
  predicate CitiesHaveRegions(regions: seq<Region>, cities: seq<City>)
  {
    forall i :: 0 <= i < |cities| ==> exists j :: 0 <= j < |regions| && regions[j].id == cities[i].regionId
  }

  /** A selected region is a listed one. */
  predicate SelectionListed(regions: seq<Region>, selected: Option<Region>)
  {
    selected.Some? ==> selected.value in regions
  }

  datatype Outcome = Missing | Declined | Failed | Done

  class MappingPage {
    var regions: seq<Region>
    var cities: seq<City>
    var selectedRegion: Option<Region>
    var newRegionName: string
    var newRegionCode: string
    var newCityName: string

    /** The page's lists are `Mapped`. */
    predicate Consistent()
      reads this
    {
      Mapped(regions, cities, selectedRegion)
    }

    constructor()
      ensures regions == [] && cities == [] && selectedRegion == None
      ensures newRegionName == "" && newRegionCode == "" && newCityName == ""
      ensures Consistent()
    {
      regions := [];
      cities := [];
      selectedRegion := None;
      newRegionName := "";
      newRegionCode := "";
      newCityName := "";
    }

    /** `fetchData()` with the two query results; a query that returned no rows object
        leaves its list as it was. */
    method Load(fetchedRegions: Option<seq<Region>>, fetchedCities: Option<seq<City>>)
      modifies this
      ensures regions == (if fetchedRegions.Some? then fetchedRegions.value else old(regions))
      ensures cities == (if fetchedCities.Some? then fetchedCities.value else old(cities))
      ensures selectedRegion == old(selectedRegion)
      ensures newRegionName == old(newRegionName) && newRegionCode == old(newRegionCode)
      ensures newCityName == old(newCityName)
    {
      if fetchedRegions.Some? {
        regions := fetchedRegions.value;
      }
      if fetchedCities.Some? {
        cities := fetchedCities.value;
      }
    }

    method EditRegionDialog(name: string, code: string)
      modifies this
      ensures newRegionName == name && newRegionCode == code && newCityName == old(newCityName)
      ensures regions == old(regions) && cities == old(cities) && selectedRegion == old(selectedRegion)
    {
      newRegionName := name;
      newRegionCode := code;
    }

    method EditCityDialog(name: string)
      modifies this
      ensures newCityName == name && newRegionName == old(newRegionName) && newRegionCode == old(newRegionCode)
      ensures regions == old(regions) && cities == old(cities) && selectedRegion == old(selectedRegion)
    {
      newCityName := name;
    }

    /** Clicking a listed region selects it. */
    method SelectRegion(region: Region)
      requires region in regions
      modifies this
      ensures selectedRegion == Some(region)
      ensures regions == old(regions) && cities == old(cities)
      ensures newRegionName == old(newRegionName) && newRegionCode == old(newRegionCode)
      ensures newCityName == old(newCityName)
      ensures old(Consistent()) ==> Consistent()
    {
      selectedRegion := Some(region);
    }

    /** `handleAddRegion()`, with the id of the inserted row or a failed insert: a name or
        code that trims to nothing is refused; otherwise the new region is appended,
        selected, and the dialog emptied. */
    method HandleAddRegion(insertedId: Option<string>) returns (outcome: Outcome)
      modifies this
      ensures outcome == Missing <==> Js.AllWhitespace(old(newRegionName)) || Js.AllWhitespace(old(newRegionCode))
      ensures outcome == Failed <==> outcome != Missing && insertedId.None?
      ensures outcome == Done ==>
                var r := NewRegion(insertedId.value, old(newRegionName), old(newRegionCode));
                regions == old(regions) + [r] && selectedRegion == Some(r) &&
                newRegionName == "" && newRegionCode == ""
      ensures outcome != Done ==>
                regions == old(regions) && selectedRegion == old(selectedRegion) &&
                newRegionName == old(newRegionName) && newRegionCode == old(newRegionCode)
      ensures outcome != Declined
      ensures cities == old(cities) && newCityName == old(newCityName)
      ensures old(Consistent()) ==> Consistent()
    {
      if Js.AllWhitespace(newRegionName) || Js.AllWhitespace(newRegionCode) {
        outcome := Missing;
      } else if insertedId.None? {
        outcome := Failed;
      } else {
        var r := NewRegion(insertedId.value, newRegionName, newRegionCode);
        if Mapped(regions, cities, selectedRegion) {
          AddRegionKeepsMapped(regions, cities, selectedRegion, r);
        }
        regions := regions + [r];
        newRegionName := "";
        newRegionCode := "";
        selectedRegion := Some(r);
        outcome := Done;
      }
    }

    /** `handleDeleteRegion(region)`, with the confirmation answer and whether the delete
        succeeded: the region goes, every city of it goes, and the selection is cleared
        exactly when it was the deleted region. */
    method HandleDeleteRegion(region: Region, confirmed: bool, deleteOk: bool) returns (outcome: Outcome)
      modifies this
      ensures outcome == Declined <==> !confirmed
      ensures outcome == Failed <==> confirmed && !deleteOk
      ensures outcome == Done ==>
                regions == Seqs.Filter(old(regions), (r: Region) => r.id != region.id) &&
                cities == Seqs.Filter(old(cities), (c: City) => c.regionId != region.id) &&
                selectedRegion == (if old(selectedRegion).Some? && old(selectedRegion).value.id == region.id
                                   then None else old(selectedRegion))
      ensures outcome != Done ==>
                regions == old(regions) && cities == old(cities) && selectedRegion == old(selectedRegion)
      ensures outcome != Missing
      ensures newRegionName == old(newRegionName) && newRegionCode == old(newRegionCode)
      ensures newCityName == old(newCityName)
      ensures old(Consistent()) ==> Consistent()
    {
      if !confirmed {
        return Declined;
      }
      if !deleteOk {
        return Failed;
      }
      if Mapped(regions, cities, selectedRegion) {
        DeleteRegionKeepsMapped(regions, cities, selectedRegion, region);
      }
      regions := Seqs.Filter(regions, (r: Region) => r.id != region.id);
      cities := Seqs.Filter(cities, (c: City) => c.regionId != region.id);
      if selectedRegion.Some? && selectedRegion.value.id == region.id {
        selectedRegion := None;
      }
      return Done;
    }

    /** `handleAddCity()`, with the id of the inserted row or a failed insert: a name that
        trims to nothing is refused first, then a missing selection; otherwise exactly one
        city of the selected region is appended and the dialog emptied. */
    method HandleAddCity(insertedId: Option<string>) returns (outcome: Outcome)
      modifies this
      ensures outcome == Missing <==> Js.AllWhitespace(old(newCityName)) || old(selectedRegion).None?
      ensures outcome == Failed <==> outcome != Missing && insertedId.None?
      ensures outcome == Done ==>
                cities == old(cities) + [NewCity(insertedId.value, old(newCityName), old(selectedRegion).value)] &&
                newCityName == ""
      ensures outcome != Done ==> cities == old(cities) && newCityName == old(newCityName)
      ensures outcome != Declined
      ensures regions == old(regions) && selectedRegion == old(selectedRegion)
      ensures newRegionName == old(newRegionName) && newRegionCode == old(newRegionCode)
      ensures old(Consistent()) ==> Consistent()
    {
      if Js.AllWhitespace(newCityName) {
        return Missing;
      }
      if selectedRegion.None? {
        return Missing;
      }
      if insertedId.None? {
        return Failed;
      }
      var c := NewCity(insertedId.value, newCityName, selectedRegion.value);
      if Mapped(regions, cities, selectedRegion) {
        AddCityKeepsMapped(regions, cities, selectedRegion, c);
      }
      cities := cities + [c];
      newCityName := "";
      return Done;
    }

    /** `handleDeleteCity(city)`, with the confirmation answer and whether the delete
        succeeded: only the cities with that id go. */
    method HandleDeleteCity(city: City, confirmed: bool, deleteOk: bool) returns (outcome: Outcome)
      modifies this
      ensures outcome == Declined <==> !confirmed
      ensures outcome == Failed <==> confirmed && !deleteOk
      ensures outcome == Done ==> cities == Seqs.Filter(old(cities), (c: City) => c.id != city.id)
      ensures outcome != Done ==> cities == old(cities)
      ensures outcome != Missing
      ensures regions == old(regions) && selectedRegion == old(selectedRegion)
      ensures newRegionName == old(newRegionName) && newRegionCode == old(newRegionCode)
      ensures newCityName == old(newCityName)
      ensures old(Consistent()) ==> Consistent()
    {
      if !confirmed {
        return Declined;
      }
      if !deleteOk {
        return Failed;
      }
      if Mapped(regions, cities, selectedRegion) {
        DeleteCityKeepsMapped(regions, cities, selectedRegion, city);
      }
      cities := Seqs.Filter(cities, (c: City) => c.id != city.id);
      return Done;
    }
  }

  /** Every city belongs to a listed region, and a selected region is a listed one. */
  predicate Mapped(regions: seq<Region>, cities: seq<City>, selected: Option<Region>)
  {
    CitiesHaveRegions(regions, cities) && SelectionListed(regions, selected)
  }

  /** Appending a region keeps every city's region listed. */
  lemma AppendRegionKeepsCities(regions: seq<Region>, cities: seq<City>, r: Region)
    requires CitiesHaveRegions(regions, cities)
    ensures CitiesHaveRegions(regions + [r], cities)
  {
    var after := regions + [r];
    forall i | 0 <= i < |cities|
      ensures exists j :: 0 <= j < |after| && after[j].id == cities[i].regionId
    {
      var j :| 0 <= j < |regions| && regions[j].id == cities[i].regionId;
      assert after[j].id == cities[i].regionId;
    }
    assert forall i :: 0 <= i < |cities| ==> exists j :: 0 <= j < |after| && after[j].id == cities[i].regionId;
  }

  /** Adding a region and selecting it keeps the lists mapped. */
  lemma AddRegionKeepsMapped(regions: seq<Region>, cities: seq<City>, selected: Option<Region>, r: Region)
    requires Mapped(regions, cities, selected)
    ensures Mapped(regions + [r], cities, Some(r))
  {
    AppendRegionKeepsCities(regions, cities, r);
    assert (regions + [r])[|regions|] == r;
  }

  /** Deleting a region together with its cities, and dropping the selection when it was
      that region, keeps the lists mapped. */
  lemma DeleteRegionKeepsMapped(regions: seq<Region>, cities: seq<City>, selected: Option<Region>, region: Region)
    requires Mapped(regions, cities, selected)
    ensures Mapped(Seqs.Filter(regions, (r: Region) => r.id != region.id),
                   Seqs.Filter(cities, (c: City) => c.regionId != region.id),
                   if selected.Some? && selected.value.id == region.id then None else selected)
  {
    var keepRegion := (r: Region) => r.id != region.id;
    var keepCity := (c: City) => c.regionId != region.id;
    var after := Seqs.Filter(regions, keepRegion);
    var left := Seqs.Filter(cities, keepCity);
    Seqs.FilterMembers(regions, keepRegion);
    Seqs.FilterMembers(cities, keepCity);
    forall i | 0 <= i < |left|
      ensures exists j :: 0 <= j < |after| && after[j].id == left[i].regionId
    {
      var c := left[i];
      assert c in cities && c.regionId != region.id;
      var k :| 0 <= k < |cities| && cities[k] == c;
      var j :| 0 <= j < |regions| && regions[j].id == c.regionId;
      assert regions[j] in after;
    }
    assert forall i :: 0 <= i < |left| ==> exists j :: 0 <= j < |after| && after[j].id == left[i].regionId;
  }

  /** Adding a city of the selected region keeps the lists mapped. */
  lemma AddCityKeepsMapped(regions: seq<Region>, cities: seq<City>, selected: Option<Region>, c: City)
    requires Mapped(regions, cities, selected)
    requires selected.Some? && c.regionId == selected.value.id
    ensures Mapped(regions, cities + [c], selected)
  {
    var after := cities + [c];
    forall i | 0 <= i < |after|
      ensures exists j :: 0 <= j < |regions| && regions[j].id == after[i].regionId
    {
      if i == |cities| {
        var j :| 0 <= j < |regions| && regions[j] == selected.value;
      } else {
        assert after[i] == cities[i];
      }
    }
    assert forall i :: 0 <= i < |after| ==> exists j :: 0 <= j < |regions| && regions[j].id == after[i].regionId;
  }

  /** Deleting cities keeps the lists mapped. */
  lemma DeleteCityKeepsMapped(regions: seq<Region>, cities: seq<City>, selected: Option<Region>, city: City)
    requires Mapped(regions, cities, selected)
    ensures Mapped(regions, Seqs.Filter(cities, (c: City) => c.id != city.id), selected)
  {
    var keep := (c: City) => c.id != city.id;
    var left := Seqs.Filter(cities, keep);
    Seqs.FilterMembers(cities, keep);
    forall i | 0 <= i < |left|
      ensures exists j :: 0 <= j < |regions| && regions[j].id == left[i].regionId
    {
      assert left[i] in cities;
      var k :| 0 <= k < |cities| && cities[k] == left[i];
    }
    assert forall i :: 0 <= i < |left| ==> exists j :: 0 <= j < |regions| && regions[j].id == left[i].regionId;
  }

  /** Deleting a region leaves no city of it behind, and the cities of the other regions
      are kept in their order. */
  lemma CascadeLeavesNoCity(cities: seq<City>, region: Region, other: Region)
    requires other.id != region.id
    ensures var kept := Seqs.Filter(cities, (c: City) => c.regionId != region.id);
            FilteredCities(kept, Some(region)) == [] &&
            FilteredCities(kept, Some(other)) == FilteredCities(cities, Some(other))
  {
    var keep := (c: City) => c.regionId != region.id;
    var kept := Seqs.Filter(cities, keep);
    Seqs.FilterNone(kept, (c: City) => c.regionId == region.id);
    FilterTwice(cities, region.id, other.id);
  }

  lemma {:induction false} FilterTwice(cities: seq<City>, gone: string, shown: string)
    requires gone != shown
    ensures Seqs.Filter(Seqs.Filter(cities, (c: City) => c.regionId != gone), (c: City) => c.regionId == shown) ==
            Seqs.Filter(cities, (c: City) => c.regionId == shown)
    decreases |cities|
  {
    if cities != [] {
      FilterTwice(cities[1..], gone, shown);
    }
  }
}
