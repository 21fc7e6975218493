// The registration page (src/pages/Register.tsx): the city-to-region table that
// fills the region fields when a city is chosen, and the submit handler that
// checks the form in a fixed order and saves the sign-up for the one-time-code
// step. The 1-second delay before leaving the page is taken as elapsed.

module Register {
  import opened Wrappers
  import Js
  import Browser

  /** A region entry of the table: its two-digit code and its name. */
  datatype Regional = Regional(code: string, name: string)

  /** The seventeen regions the table maps cities to. */
  const MalangRaya: Regional := Regional("01", "MALANG RAYA")
  const BlitarRaya: Regional := Regional("02", "BLITAR RAYA")
  const TulungagungTrenggalek: Regional := Regional("03", "TULUNGAGUNG-TRENGGALEK")
  const PlatAe: Regional := Regional("04", "PLAT AE")
  const Banyuwangi: Regional := Regional("05", "BANYUWANGI")
  const Ojolamban: Regional := Regional("06", "OJOLAMBAN")
  const KediriRaya: Regional := Regional("07", "KEDIRI RAYA")
  const Jombang: Regional := Regional("08", "JOMBANG")
  const Mojokerto: Regional := Regional("09", "MOJOKERTO")
  const DapilIv: Regional := Regional("10", "DAPIL IV")
  const Nganjuk: Regional := Regional("11", "NGANJUK")
  const MaduraRaya: Regional := Regional("12", "MADURA RAYA")
  const ProbolinggoRaya: Regional := Regional("13", "PROBOLINGGO RAYA")
  const SurabayaGresik: Regional := Regional("14", "SURABAYA-GRESIK")
  const Sidopas: Regional := Regional("15", "SIDOPAS")
  const Situbondo: Regional := Regional("16", "SITUBONDO")
  const Bondowoso: Regional := Regional("17", "BONDOWOSO")

  const Regions: seq<Regional> := [MalangRaya, BlitarRaya, TulungagungTrenggalek, PlatAe, Banyuwangi, Ojolamban, KediriRaya, Jombang, Mojokerto, DapilIv, Nganjuk, MaduraRaya, ProbolinggoRaya, SurabayaGresik, Sidopas, Situbondo, Bondowoso]

  /** The entries of `cities`, each with the region `r`. */
  function Group(cities: seq<string>, r: Regional): (entries: seq<(string, Regional)>)
    ensures |entries| == |cities|
    ensures forall i :: 0 <= i < |cities| ==> entries[i] == (cities[i], r)
    ensures forall e :: e in entries ==> e.1 == r
  {
    seq(|cities|, i requires 0 <= i < |cities| => (cities[i], r))
  }

  /** `regionalData`: each city with its region, in the order the table is written, where
      the cities of one region stand together. */
  const RegionalData: seq<(string, Regional)> :=
    Group(["Kota Malang", "Kabupaten Malang", "Kota Batu"], MalangRaya) +
    Group(["Kota Blitar", "Kabupaten Blitar"], BlitarRaya) +
    Group(["Kabupaten Tulungagung", "Kabupaten Trenggalek"], TulungagungTrenggalek) +
    Group(["Kota Madiun", "Kabupaten Madiun", "Kabupaten Magetan", "Kabupaten Ngawi", "Kabupaten Ponorogo", "Kabupaten Pacitan"], PlatAe) +
    Group(["Kabupaten Banyuwangi"], Banyuwangi) +
    Group(["Kabupaten Bojonegoro", "Kabupaten Lamongan", "Kabupaten Tuban"], Ojolamban) +
    Group(["Kota Kediri", "Kabupaten Kediri"], KediriRaya) +
    Group(["Kabupaten Jombang"], Jombang) +
    Group(["Kota Mojokerto", "Kabupaten Mojokerto"], Mojokerto) +
    Group(["Kabupaten Jember", "Kabupaten Lumajang"], DapilIv) +
    Group(["Kabupaten Nganjuk"], Nganjuk) +
    Group(["Kabupaten Bangkalan", "Kabupaten Sampang", "Kabupaten Pamekasan", "Kabupaten Sumenep"], MaduraRaya) +
    Group(["Kota Probolinggo", "Kabupaten Probolinggo"], ProbolinggoRaya) +
    Group(["Kota Surabaya", "Kabupaten Gresik"], SurabayaGresik) +
    Group(["Kabupaten Sidoarjo", "Kota Pasuruan", "Kabupaten Pasuruan"], Sidopas) +
    Group(["Kabupaten Situbondo"], Situbondo) +
    Group(["Kabupaten Bondowoso"], Bondowoso)

  /** The keys of a table, in its order (`Object.keys`). */
  function Keys(table: seq<(string, Regional)>): (keys: seq<string>)
    ensures |keys| == |table|
    ensures forall i :: 0 <= i < |table| ==> keys[i] == table[i].0
  {
    if table == [] then [] else Keys(table[..|table| - 1]) + [table[|table| - 1].0]
  }

  /** `table[city]`: the value of the last entry with that key, as in an object literal
      whose key repeats; absent for a key the table does not have. */
  function Find(table: seq<(string, Regional)>, city: string): (r: Option<Regional>)
    ensures r.Some? <==> city in Keys(table)
    ensures r.Some? ==> (city, r.value) in table
  {
    if table == [] then None
    else if table[|table| - 1].0 == city then Some(table[|table| - 1].1)
    else
      var r := Find(table[..|table| - 1], city);
      assert Keys(table) == Keys(table[..|table| - 1]) + [table[|table| - 1].0];
      assert r.Some? ==> (city, r.value) in table[..|table| - 1];
      r
  }

  /** `regionalData[city]`, absent for a city the table does not list. */
  function Lookup(city: string): Option<Regional>
  {
    Find(RegionalData, city)
  }

  const RegionCodes: seq<string> := ["01", "02", "03", "04", "05", "06", "07", "08", "09", "10", "11", "12", "13", "14", "15", "16", "17"]

  /** The seventeen regions' codes are "01" to "17", in order, and each has a name. */
  lemma RegionsCoded()
    ensures forall i :: 0 <= i < |Regions| ==> Regions[i].code == RegionCodes[i] && Regions[i].name != ""
  {
  }

  /** Every city of the table maps to one of the seventeen regions. */
  lemma TableCodes(city: string)
    ensures Lookup(city).Some? ==> Lookup(city).value in Regions
  {
    if Lookup(city).Some? {
      var e := (city, Lookup(city).value);
      assert e in RegionalData;
    }
  }

  /** `Object.keys(regionalData).sort()`: the cities offered by the city selector. */
  const Cities: seq<string> := Js.SortStrings(Keys(RegionalData))

  /** The selector offers exactly the table's cities, each once when the table's keys
      are distinct. */
  lemma CitiesAreTableKeys(city: string)
    ensures city in Cities <==> Lookup(city).Some?
    ensures multiset(Cities)[city] == multiset(Keys(RegionalData))[city]
  {
    assert multiset(Cities) == multiset(Keys(RegionalData));
    assert city in Cities <==> city in multiset(Cities);
  }

  /** The registration form's state. */
  datatype Form = Form(namaPesantren: string, namaPengasuh: string, namaMedia: string, email: string,
                       phone: string, city: string, regional: string, regionalCode: string,
                       password: string, agreeTerms: bool)

  const EmptyForm: Form := Form("", "", "", "", "", "", "", "", "", false)

  /** The seven fields the submit handler requires. */
  predicate Complete(f: Form)
  {
    f.namaPesantren != "" && f.namaPengasuh != "" && f.namaMedia != "" && f.email != "" &&
    f.phone != "" && f.city != "" && f.password != ""
  }

  /** How a submit ends: refused for a missing field, refused for the unticked terms box,
      or saved with the page moving to the one-time-code step for `email`. */
  datatype SubmitOutcome = Incomplete | TermsNotAgreed | Saved(destination: string, flowType: string, email: string)

  const VerifyOtpPath: string := "/verify-otp"

  /** The record saved for a form: its fields, the id and time of the submission, the
      origin "register", the amount 50 000 and the status "pending_otp". */
  function PendingRecord(f: Form, id: int, now: string): (r: Browser.Registration)
    ensures r.originSource == "register" && r.tagihan == 50000 && r.status == "pending_otp"
    ensures r.id == id && r.createdAt == now && r.verifiedAt == None
    ensures r.email == f.email && r.city == f.city && r.regional == f.regional && r.password == f.password
  {
    Browser.Registration(f.namaPesantren, f.namaPengasuh, f.namaMedia, f.email, f.phone, f.city,
                         f.regional, f.regionalCode, f.password, f.agreeTerms, id, "register",
                         50000, "pending_otp", now, None)
  }

  class RegisterPage {
    var form: Form

    constructor()
      ensures form == EmptyForm
    {
      form := EmptyForm;
    }

    /** `handleCityChange(value)`: the city, and the region's name and code from the table,
        both empty for a city the table does not list; no other field changes. */
    method HandleCityChange(value: string)
      modifies this
      ensures form == old(form).(city := value,
                                 regional := if Lookup(value).Some? then Lookup(value).value.name else "",
                                 regionalCode := if Lookup(value).Some? then Lookup(value).value.code else "")
    {
      var regional := Lookup(value);
      form := form.(city := value,
                    regional := if regional.Some? then regional.value.name else "",
                    regionalCode := if regional.Some? then regional.value.code else "");
    }

    /** `handleSubmit()`: the required fields first, then the terms box; an accepted form
        is saved as the pending registration, replacing any earlier one. */
    method HandleSubmit(store: Browser.Store, freshId: int, now: string) returns (outcome: SubmitOutcome)
      modifies store
      ensures outcome == Incomplete <==> !Complete(form)
      ensures outcome == TermsNotAgreed <==> Complete(form) && !form.agreeTerms
      ensures outcome.Saved? <==> Complete(form) && form.agreeTerms
      ensures outcome.Saved? ==>
                outcome == Saved(VerifyOtpPath, "register", form.email) &&
                store.pendingRegistration == Some(PendingRecord(form, freshId, now))
      ensures !outcome.Saved? ==> store.pendingRegistration == old(store.pendingRegistration)
      ensures store.registrations == old(store.registrations) && store.pendingClaim == old(store.pendingClaim)
      ensures store.claims == old(store.claims) && store.payments == old(store.payments)
    {
      if form.namaPesantren == "" || form.namaPengasuh == "" || form.namaMedia == "" ||
         form.email == "" || form.phone == "" || form.city == "" || form.password == "" {
        return Incomplete;
      }
      if !form.agreeTerms {
        return TermsNotAgreed;
      }
      store.pendingRegistration := Some(PendingRecord(form, freshId, now));
      return Saved(VerifyOtpPath, "register", form.email);
    }
  }

  /** A city picked from the selector always fills in a region, with a code between
      "01" and "17". */
  lemma SelectedCityHasRegion(city: string)
    requires city in Cities
    ensures Lookup(city).Some? && Lookup(city).value.code in RegionCodes
  {
    CitiesAreTableKeys(city);
    TableCodes(city);
    RegionsCoded();
    var i :| 0 <= i < |Regions| && Regions[i] == Lookup(city).value;
    assert Lookup(city).value.code == RegionCodes[i];
  }
}
