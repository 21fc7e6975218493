// Profile leveling on the institution identity screen
// (src/components/media-dashboard/IdentitasPesantren.tsx): three cumulative
// claim predicates over the form, the step-completion map and progress score
// derived from the current level, and the two handlers that edit the form and
// promote the level. The level itself is owned by the parent screen; the model
// keeps it beside the form and lets the promotion handler set it, as the
// parent's `onProfileLevelChange` callback does. The debounced auto-save only
// drives a "saved" indicator and is not modelled.

module ProfileLeveling {
  import opened Wrappers
  import Js

  datatype Level = Basic | Silver | Gold | Platinum

  /** The position of a level in the order basic < silver < gold < platinum. */
  function Rank(l: Level): (r: nat)
    ensures r <= 3
  {
    match l
    case Basic => 0
    case Silver => 1
    case Gold => 2
    case Platinum => 3
  }

  datatype Platform = Instagram | Youtube | Tiktok | Website

  datatype SocialLinks = SocialLinks(instagram: string, youtube: string, tiktok: string, website: string)

  function Link(links: SocialLinks, p: Platform): string
  {
    match p
    case Instagram => links.instagram
    case Youtube => links.youtube
    case Tiktok => links.tiktok
    case Website => links.website
  }

  /** The form state, one field per key of the screen's `formData`. */
  datatype FormData = FormData(
    namaPesantren: string, namaPengasuh: string, alamatSingkat: string,
    region: string, city: string,
    logoPesantrenUrl: string, namaMedia: string, socialLinks: SocialLinks,
    fotoPengasuhUrl: string, dawuhPengasuh: string, jumlahSantriTerbaru: string,
    tahunBerdiriPesantren: string, latitude: string, longitude: string,
    visiMisi: string, sejarahSingkat: string, tipePesantren: string,
    jenjangPendidikan: seq<string>, programUnggulan: string,
    fotoGedungPesantren: string, logoMediaPesantren: string)

  /** The keys `handleFieldChange` can be given: every form key, with the social
      links addressed as `socialLinks.<platform>`. */
  datatype Field =
    | NamaPesantren | NamaPengasuh | AlamatSingkat | Region | City
    | LogoPesantrenUrl | NamaMedia | Social(platform: Platform)
    | FotoPengasuhUrl | DawuhPengasuh | JumlahSantriTerbaru | TahunBerdiriPesantren
    | Latitude | Longitude | VisiMisi | SejarahSingkat | TipePesantren
    | JenjangPendidikan | ProgramUnggulan | FotoGedungPesantren | LogoMediaPesantren

  /** A field value: a string, or the string list of `jenjangPendidikan`. */
  datatype Value = Text(text: string) | List(items: seq<string>)

  function Get(f: FormData, field: Field): Value
  {
    match field
    case NamaPesantren => Text(f.namaPesantren)
    case NamaPengasuh => Text(f.namaPengasuh)
    case AlamatSingkat => Text(f.alamatSingkat)
    case Region => Text(f.region)
    case City => Text(f.city)
    case LogoPesantrenUrl => Text(f.logoPesantrenUrl)
    case NamaMedia => Text(f.namaMedia)
    case Social(p) => Text(Link(f.socialLinks, p))
    case FotoPengasuhUrl => Text(f.fotoPengasuhUrl)
    case DawuhPengasuh => Text(f.dawuhPengasuh)
    case JumlahSantriTerbaru => Text(f.jumlahSantriTerbaru)
    case TahunBerdiriPesantren => Text(f.tahunBerdiriPesantren)
    case Latitude => Text(f.latitude)
    case Longitude => Text(f.longitude)
    case VisiMisi => Text(f.visiMisi)
    case SejarahSingkat => Text(f.sejarahSingkat)
    case TipePesantren => Text(f.tipePesantren)
    case JenjangPendidikan => List(f.jenjangPendidikan)
    case ProgramUnggulan => Text(f.programUnggulan)
    case FotoGedungPesantren => Text(f.fotoGedungPesantren)
    case LogoMediaPesantren => Text(f.logoMediaPesantren)
  }

  /** The value's shape agrees with the field's. */
  predicate Fits(field: Field, v: Value)
  {
    v.List? <==> field == JenjangPendidikan
  }

  /** The fields some input of the screen edits; region and city are shown disabled. */
  predicate InputBound(field: Field)
  {
    field in {NamaPesantren, NamaPengasuh, AlamatSingkat, NamaMedia, DawuhPengasuh,
              JumlahSantriTerbaru, TahunBerdiriPesantren, Latitude, Longitude, VisiMisi,
              SejarahSingkat, TipePesantren, JenjangPendidikan, ProgramUnggulan}
    || field.Social?
  }

  function SetLink(links: SocialLinks, p: Platform, s: string): (r: SocialLinks)
    ensures Link(r, p) == s
    ensures forall q :: q != p ==> Link(r, q) == Link(links, q)
  {
    match p
    case Instagram => links.(instagram := s)
    case Youtube => links.(youtube := s)
    case Tiktok => links.(tiktok := s)
    case Website => links.(website := s)
  }

  /** The state update of `handleFieldChange`, `{ ...prev, [field]: value }`: every key
      keeps its old value except the one named, and a `socialLinks.` key does the same
      inside a copy of the links. A string list can only be `jenjangPendidikan`'s value. */
  function Update(f: FormData, field: Field, v: Value): (r: FormData)
    requires Fits(field, v)
  {
    match v
    case List(items) => f.(jenjangPendidikan := items)
    case Text(t) =>
      FormData(
        if field == NamaPesantren then t else f.namaPesantren,
        if field == NamaPengasuh then t else f.namaPengasuh,
        if field == AlamatSingkat then t else f.alamatSingkat,
        if field == Region then t else f.region,
        if field == City then t else f.city,
        if field == LogoPesantrenUrl then t else f.logoPesantrenUrl,
        if field == NamaMedia then t else f.namaMedia,
        if field.Social? then SetLink(f.socialLinks, field.platform, t) else f.socialLinks,
        if field == FotoPengasuhUrl then t else f.fotoPengasuhUrl,
        if field == DawuhPengasuh then t else f.dawuhPengasuh,
        if field == JumlahSantriTerbaru then t else f.jumlahSantriTerbaru,
        if field == TahunBerdiriPesantren then t else f.tahunBerdiriPesantren,
        if field == Latitude then t else f.latitude,
        if field == Longitude then t else f.longitude,
        if field == VisiMisi then t else f.visiMisi,
        if field == SejarahSingkat then t else f.sejarahSingkat,
        if field == TipePesantren then t else f.tipePesantren,
        f.jenjangPendidikan,
        if field == ProgramUnggulan then t else f.programUnggulan,
        if field == FotoGedungPesantren then t else f.fotoGedungPesantren,
        if field == LogoMediaPesantren then t else f.logoMediaPesantren)
  }

  /** The field named takes the new value. */
  lemma UpdateSets(f: FormData, field: Field, v: Value)
    requires Fits(field, v)
    ensures Get(Update(f, field, v), field) == v
  {
    match field
    case NamaPesantren => {}
    case NamaPengasuh => {}
    case AlamatSingkat => {}
    case Region => {}
    case City => {}
    case LogoPesantrenUrl => {}
    case NamaMedia => {}
    case Social(p) => {}
    case FotoPengasuhUrl => {}
    case DawuhPengasuh => {}
    case JumlahSantriTerbaru => {}
    case TahunBerdiriPesantren => {}
    case Latitude => {}
    case Longitude => {}
    case VisiMisi => {}
    case SejarahSingkat => {}
    case TipePesantren => {}
    case JenjangPendidikan => {}
    case ProgramUnggulan => {}
    case FotoGedungPesantren => {}
    case LogoMediaPesantren => {}
  }

  /** The keys of the form's first section, up to the media name. */
  predicate IdentityKey(g: Field)
  {
    g.NamaPesantren? || g.NamaPengasuh? || g.AlamatSingkat? || g.Region? || g.City? ||
    g.LogoPesantrenUrl? || g.NamaMedia?
  }

  /** The keys of the caretaker's and the numbers' section. */
  predicate ProfileKey(g: Field)
  {
    g.FotoPengasuhUrl? || g.DawuhPengasuh? || g.JumlahSantriTerbaru? || g.TahunBerdiriPesantren? ||
    g.Latitude? || g.Longitude?
  }

  /** Changing one field leaves every other field, and every other social link, as it was. */
  lemma UpdateKeepsOthers(f: FormData, field: Field, v: Value, g: Field)
    requires Fits(field, v) && g != field
    ensures Get(Update(f, field, v), g) == Get(f, g)
  {
    if IdentityKey(g) {
      KeepsIdentity(f, field, v, g);
    } else if g.Social? {
      KeepsSocial(f, field, v, g);
    } else if ProfileKey(g) {
      KeepsProfile(f, field, v, g);
    } else {
      KeepsDetail(f, field, v, g);
    }
  }

  lemma KeepsSocial(f: FormData, field: Field, v: Value, g: Field)
    requires Fits(field, v) && g != field && g.Social?
    ensures Get(Update(f, field, v), g) == Get(f, g)
  {
    if field.Social? {
      assert field.platform != g.platform;
    }
  }

  lemma KeepsIdentity(f: FormData, field: Field, v: Value, g: Field)
    requires Fits(field, v) && g != field
    requires IdentityKey(g)
    ensures Get(Update(f, field, v), g) == Get(f, g)
  {
  }

  lemma KeepsProfile(f: FormData, field: Field, v: Value, g: Field)
    requires Fits(field, v) && g != field
    requires ProfileKey(g)
    ensures Get(Update(f, field, v), g) == Get(f, g)
  {
  }

  lemma KeepsDetail(f: FormData, field: Field, v: Value, g: Field)
    requires Fits(field, v) && g != field
    requires !IdentityKey(g) && !g.Social? && !ProfileKey(g)
    ensures Get(Update(f, field, v), g) == Get(f, g)
  {
  }

  // ---------------------------------------------------------------------------
  // Claim predicates

  predicate CanClaimSilver(f: FormData)
  {
    Js.Trim(f.namaPesantren) != "" && Js.Trim(f.namaPengasuh) != "" && Js.Trim(f.alamatSingkat) != ""
  }

  predicate CanClaimGold(f: FormData)
  {
    CanClaimSilver(f) &&
    (f.logoPesantrenUrl != "" || true) &&  // the logo clause never fails
    (f.socialLinks.instagram != "" || f.socialLinks.youtube != "" ||
     f.socialLinks.tiktok != "" || f.socialLinks.website != "") &&
    f.latitude != "" && f.longitude != ""
  }

  predicate CanClaimPlatinum(f: FormData)
  {
    CanClaimGold(f) &&
    Js.Trim(f.visiMisi) != "" && Js.Trim(f.sejarahSingkat) != "" &&
    (f.fotoGedungPesantren != "" || true)  // the building-photo clause never fails
  }

  /** Silver needs each of the three basic fields to hold a non-whitespace character. */
  lemma SilverMeaning(f: FormData)
    ensures CanClaimSilver(f) <==>
              !Js.AllWhitespace(f.namaPesantren) && !Js.AllWhitespace(f.namaPengasuh) &&
              !Js.AllWhitespace(f.alamatSingkat)
  {
    Js.TrimEmptyIff(f.namaPesantren);
    Js.TrimEmptyIff(f.namaPengasuh);
    Js.TrimEmptyIff(f.alamatSingkat);
  }

  /** Gold needs silver, some non-empty social link and both coordinates; the logo is not needed. */
  lemma GoldMeaning(f: FormData)
    ensures CanClaimGold(f) <==>
              CanClaimSilver(f) && (exists p :: Link(f.socialLinks, p) != "") &&
              f.latitude != "" && f.longitude != ""
  {
    if exists p :: Link(f.socialLinks, p) != "" {
      var p :| Link(f.socialLinks, p) != "";
      assert p.Instagram? || p.Youtube? || p.Tiktok? || p.Website?;
    }
    if f.socialLinks.instagram != "" {
      assert Link(f.socialLinks, Instagram) != "";
    } else if f.socialLinks.youtube != "" {
      assert Link(f.socialLinks, Youtube) != "";
    } else if f.socialLinks.tiktok != "" {
      assert Link(f.socialLinks, Tiktok) != "";
    } else if f.socialLinks.website != "" {
      assert Link(f.socialLinks, Website) != "";
    }
  }

  /** Platinum needs gold and non-blank vision and history texts; the photo is not needed. */
  lemma PlatinumMeaning(f: FormData)
    ensures CanClaimPlatinum(f) <==>
              CanClaimGold(f) && !Js.AllWhitespace(f.visiMisi) && !Js.AllWhitespace(f.sejarahSingkat)
  {
    Js.TrimEmptyIff(f.visiMisi);
    Js.TrimEmptyIff(f.sejarahSingkat);
  }

  /** The predicates are cumulative. */
  lemma ClaimsCumulative(f: FormData)
    ensures CanClaimPlatinum(f) ==> CanClaimGold(f)
    ensures CanClaimGold(f) ==> CanClaimSilver(f)
  {
  }

  // ---------------------------------------------------------------------------
  // Steps, buttons and progress

  /** `isStepComplete(step)` */
  predicate IsStepComplete(level: Level, step: int)
  {
    if step == 1 then level != Basic
    else if step == 2 then level == Gold || level == Platinum
    else if step == 3 then level == Platinum
    else false
  }

  /** A step counts as complete exactly when the level has reached that tier. */
  lemma StepCompleteMeaning(level: Level, step: int)
    ensures IsStepComplete(level, step) <==> 1 <= step <= 3 && Rank(level) >= step
  {
  }

  /** The step-save buttons' enable conditions (the negation of their `disabled` expressions). */
  predicate StepButtonEnabled(level: Level, step: int)
  {
    if step == 1 then !IsStepComplete(level, 1)
    else if step == 2 then IsStepComplete(level, 1) && !IsStepComplete(level, 2)
    else if step == 3 then IsStepComplete(level, 2) && !IsStepComplete(level, 3)
    else false
  }

  /** Exactly the button of the next tier is enabled. */
  lemma ButtonMeaning(level: Level, step: int)
    ensures StepButtonEnabled(level, step) <==> 1 <= step <= 3 && Rank(level) == step - 1
  {
  }

  /** `calculateProgress()` */
  function Progress(f: FormData, level: Level): (p: nat)
  {
    var basic := if f.namaPesantren != "" && f.namaPengasuh != "" && f.alamatSingkat != "" then 25 else 0;
    var silver := if level != Basic then 25 else 0;
    var gold := if level == Gold || level == Platinum then 25 else 0;
    var platinum := if level == Platinum then 25 else 0;
    basic + silver + gold + platinum
  }

  /** Progress is 25 for filled basic fields plus 25 per tier reached, a multiple of 25 up to 100. */
  lemma ProgressMeaning(f: FormData, level: Level)
    ensures Progress(f, level) ==
              (if f.namaPesantren != "" && f.namaPengasuh != "" && f.alamatSingkat != "" then 25 else 0)
              + 25 * Rank(level)
    ensures Progress(f, level) in {0, 25, 50, 75, 100}
  {
  }

  /** The basic-fields share of progress tests the untrimmed fields, so it can be earned
      by a form that cannot claim silver. */
  lemma ProgressCountsBlankFields(f: FormData)
    requires f.namaPesantren == " " && f.namaPengasuh == " " && f.alamatSingkat == " "
    ensures Progress(f, Basic) == 25 && !CanClaimSilver(f)
  {
    Js.TrimSpace();
  }

  /** The level `handleSaveStep(step)` hands to the parent, if any: the step's tier when
      its predicate holds, nothing when it fails or the step is unknown. */
  function Promotion(f: FormData, step: int): (r: Option<Level>)
    ensures r.Some? ==> 1 <= step <= 3 && Rank(r.value) == step
    ensures r.None? <==>
              !(1 <= step <= 3) || (step == 1 && !CanClaimSilver(f)) ||
              (step == 2 && !CanClaimGold(f)) || (step == 3 && !CanClaimPlatinum(f))
  {
    if step == 1 then (if !CanClaimSilver(f) then None else Some(Silver))
    else if step == 2 then (if !CanClaimGold(f) then None else Some(Gold))
    else if step == 3 then (if !CanClaimPlatinum(f) then None else Some(Platinum))
    else None
  }

  /** A form with every field empty. */
  function EmptyForm(): (f: FormData)
    ensures !CanClaimSilver(f)
  {
    FormData("", "", "", "", "", "", "", SocialLinks("", "", "", ""), "", "", "", "", "", "",
             "", "", "", [], "", "", "")
  }

  /** The optional debug profile the screen may be opened with. */
  datatype DebugProfile = DebugProfile(
    namaPesantren: Option<string>, namaPengasuh: Option<string>, alamatSingkat: Option<string>,
    regionName: Option<string>, cityName: Option<string>)

  /** `value || fallback` on an optional string. */
  function OrElse(o: Option<string>, fallback: string): (s: string)
    ensures s == fallback || (o.Some? && s == o.value && s != "")
  {
    if o.Some? && o.value != "" then o.value else fallback
  }

  const DemoNamaPesantren: string := "Pondok Pesantren Al-Hikmah"
  const DemoNamaPengasuh: string := "KH. Ahmad Dahlan"
  const DemoAlamatSingkat: string := "Jl. Raya No. 123, Malang"
  const DemoRegion: string := "Malang Raya"
  const DemoCity: string := "Kota Malang"

  /** The form's initial state: demo basic data, overridable from a debug profile, and
      every other field empty. */
  function InitialForm(debug: Option<DebugProfile>): (f: FormData)
    ensures !CanClaimGold(f)
    ensures f.region != "" && f.city != ""
  {
    var d := if debug.Some? then debug.value else DebugProfile(None, None, None, None, None);
    FormData(
      OrElse(d.namaPesantren, DemoNamaPesantren), OrElse(d.namaPengasuh, DemoNamaPengasuh),
      OrElse(d.alamatSingkat, DemoAlamatSingkat), OrElse(d.regionName, DemoRegion),
      OrElse(d.cityName, DemoCity),
      "", "", SocialLinks("", "", "", ""), "", "", "", "", "", "", "", "", "", [], "", "", "")
  }

  /** Only the five basic fields of the opening form can differ from the empty form. */
  lemma InitialFormRestEmpty(debug: Option<DebugProfile>, g: Field)
    requires !(g.NamaPesantren? || g.NamaPengasuh? || g.AlamatSingkat? || g.Region? || g.City?)
    ensures Get(InitialForm(debug), g) == Get(EmptyForm(), g)
  {
  }

  /** The screen's form together with the level its parent holds. */
  class IdentityScreen {
    var form: FormData
    var level: Level

    /** The screen opened at `profileLevel` with its initial form, `InitialForm(debugProfile)`. */
    constructor(profileLevel: Level, debug: Option<DebugProfile>)
      ensures form == InitialForm(debug) && level == profileLevel
    {
      form := InitialForm(debug);
      level := profileLevel;
    }

    /** `handleFieldChange(field, value)`, as called by the screen's inputs. */
    method HandleFieldChange(field: Field, value: Value)
      requires InputBound(field) && Fits(field, value)
      modifies this
      ensures Get(form, field) == value
      ensures forall g :: g != field ==> Get(form, g) == Get(old(form), g)
      ensures form.region == old(form.region) && form.city == old(form.city)
      ensures level == old(level)
    {
      form := Update(form, field, value);
      UpdateSets(old(form), field, value);
      forall g | g != field
        ensures Get(form, g) == Get(old(form), g)
      {
        UpdateKeepsOthers(old(form), field, value, g);
      }
      assert Get(form, Region) == Get(old(form), Region);
      assert Get(form, City) == Get(old(form), City);
    }

    /** `handleSaveStep(step)`, reachable only through an enabled step button. */
    method HandleSaveStep(step: int)
      requires StepButtonEnabled(level, step)
      modifies this
      ensures form == old(form)
      ensures level == (if Promotion(form, step).Some? then Promotion(form, step).value else old(level))
      ensures level == old(level) || Rank(level) == Rank(old(level)) + 1
      ensures Rank(level) >= Rank(old(level))
    {
      var promoted := Promotion(form, step);
      if promoted.Some? {
        ButtonMeaning(level, step);
        level := promoted.value;
      }
    }
  }
}
