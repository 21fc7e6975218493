// The gamification settings screen (src/components/dashboard/Gamifikasi.tsx):
// the XP rules, badges and levels held in page state, the dialogs that add
// and edit them, and the lookup of the level an XP total has reached. New ids
// come from the clock and are taken as parameters; the leaderboard, the
// season reset (a toast only) and the toasts are not modelled.

module Gamifikasi {
  import opened Wrappers
  import Seqs

  datatype Limit = NoLimit | Daily | Once
  datatype TriggerType = Xp | EventCount | Manual

  /** An XP rule; `title` holds the rule's `label` (a reserved word here). */
  datatype XPRule = XPRule(id: string, actionKey: string, title: string, xpValue: int, limit: Limit,
                           isActive: bool)
  datatype Badge = Badge(id: string, name: string, icon: string, triggerType: TriggerType,
                         conditionValue: int, usersCount: int)
  datatype Level = Level(id: string, name: string, minXP: int, color: string)

  datatype XPForm = XPForm(actionKey: string, title: string, xpValue: int, limit: Limit)
  datatype BadgeForm = BadgeForm(name: string, icon: string, triggerType: TriggerType, conditionValue: int)
  datatype LevelForm = LevelForm(name: string, minXP: int, color: string)

  const Trophy: string := "\U{1F3C6}"
  const BlankXPForm: XPForm := XPForm("", "", 10, NoLimit)
  const BlankBadgeForm: BadgeForm := BadgeForm("", Trophy, Xp, 0)
  const BlankLevelForm: LevelForm := LevelForm("", 0, "#22c55e")

  /** The rules, badges and levels the screen starts with. */
  const InitialXPRules: seq<XPRule> := [
    XPRule("1", "login_daily", "Absensi Harian", 10, Daily, true),
    XPRule("2", "attend_event", "Menghadiri Event", 50, NoLimit, true),
    XPRule("3", "complete_profile", "Lengkapi Profil", 100, Once, true),
    XPRule("4", "invite_member", "Mengundang Anggota", 25, NoLimit, true),
    XPRule("5", "submit_report", "Kirim Laporan Kegiatan", 30, NoLimit, false)
  ]
  const InitialBadges: seq<Badge> := [
    Badge("1", "Veteran Jatim", Trophy, Xp, 5000, 45),
    Badge("2", "Event Master", "\U{1F3AF}", EventCount, 10, 120),
    Badge("3", "Khodim Teladan", "\U{2B50}", Manual, 0, 15),
    Badge("4", "Pioneer", "\U{1F680}", Xp, 1000, 280)
  ]
  const InitialLevels: seq<Level> := [
    Level("1", "Muhibbin", 0, "#94a3b8"),
    Level("2", "Penggerak", 500, "#22c55e"),
    Level("3", "Aktivis", 1500, "#3b82f6"),
    Level("4", "Khodim", 3000, "#8b5cf6"),
    Level("5", "Tokoh", 5000, "#f59e0b")
  ]

  // ---------------------------------------------------------------------------
  // The level an XP total has reached

  /** The position of the level `getLevelByXP` finds when one qualifies: the highest
      threshold not above `xp`, the earliest such level on a tie (the descending sort is
      stable, so equal thresholds keep their order); nothing when no level qualifies. */
  function Reached(levels: seq<Level>, xp: int): (r: Option<nat>)
    ensures r.Some? ==> r.value < |levels| && levels[r.value].minXP <= xp
    ensures r.Some? ==> forall j :: 0 <= j < |levels| && levels[j].minXP <= xp ==>
                          levels[j].minXP <= levels[r.value].minXP
    ensures r.Some? ==> forall j :: 0 <= j < r.value && levels[j].minXP <= xp ==>
                          levels[j].minXP < levels[r.value].minXP
    ensures r.None? <==> forall j :: 0 <= j < |levels| ==> levels[j].minXP > xp
  {
    if levels == [] then None
    else
      var rest := Reached(levels[1..], xp);
      if levels[0].minXP <= xp && (rest.None? || levels[1..][rest.value].minXP <= levels[0].minXP) then
        Some(0)
      else if rest.None? then None
      else Some(rest.value + 1)
  }

  /** `getLevelByXP(xp)`: the level reached, or the first level when none is; with no
      levels at all there is nothing to show. */
  function LevelByXP(levels: seq<Level>, xp: int): (l: Option<Level>)
    ensures l.None? <==> levels == []
    ensures l.Some? ==> l.value in levels
    ensures l.Some? && l.value.minXP <= xp ==>
              forall j :: 0 <= j < |levels| && levels[j].minXP <= xp ==> levels[j].minXP <= l.value.minXP
    ensures levels != [] && (forall j :: 0 <= j < |levels| ==> levels[j].minXP > xp) ==> l == Some(levels[0])
  {
    var r := Reached(levels, xp);
    if r.Some? then Some(levels[r.value])
    else if levels == [] then None
    else Some(levels[0])
  }

  /** With the screen's own levels in their initial, ascending order an XP total falls in
      exactly one band: below 500 (a negative total included, through the fallback to the
      first level) it is Muhibbin, and from 5000 on it is Tokoh. */
  lemma InitialLevelBands(xp: int)
    ensures var l := LevelByXP(InitialLevels, xp);
            l.Some? &&
            (xp < 500 ==> l.value.name == "Muhibbin") &&
            (500 <= xp < 1500 ==> l.value.name == "Penggerak") &&
            (1500 <= xp < 3000 ==> l.value.name == "Aktivis") &&
            (3000 <= xp < 5000 ==> l.value.name == "Khodim") &&
            (5000 <= xp ==> l.value.name == "Tokoh")
  {
    var levels := InitialLevels;
    assert levels[0].minXP == 0 && levels[1].minXP == 500 && levels[2].minXP == 1500;
    assert levels[3].minXP == 3000 && levels[4].minXP == 5000;
    var r := Reached(levels, xp);
    if xp < 0 {
      assert r.None?;
    } else {
      assert r.Some?;
      var k := r.value;
      assert levels[k].minXP <= xp;
      assert k == 0 || k == 1 || k == 2 || k == 3 || k == 4;
    }
  }

  /** The level list as the screen reads it: every render sorts the level state in place
      with `levels.sort((a, b) => b.minXP - a.minXP)` while building the level tab, before
      the same render's `getLevelByXP` calls. The initial thresholds are distinct and
      ascending, so the sort reverses them. */
  const RenderedLevels: seq<Level> :=
    [InitialLevels[4], InitialLevels[3], InitialLevels[2], InitialLevels[1], InitialLevels[0]]

  /** The rendered list is the initial levels in descending threshold order. */
  lemma RenderedLevelsDescending()
    ensures forall i, j :: 0 <= i < j < |RenderedLevels| ==> RenderedLevels[i].minXP > RenderedLevels[j].minXP
    ensures multiset(RenderedLevels) == multiset(InitialLevels)
  {
    var r := RenderedLevels;
    assert r[0].minXP == 5000 && r[1].minXP == 3000 && r[2].minXP == 1500;
    assert r[3].minXP == 500 && r[4].minXP == 0;
    var i := InitialLevels;
    assert i == [i[0], i[1], i[2], i[3], i[4]];
  }

  /** What the screen shows once rendered: the same bands from 0 on, but a negative total
      falls back to the first level of the sorted list, Tokoh. */
  lemma RenderedLevelBands(xp: int)
    ensures var l := LevelByXP(RenderedLevels, xp);
            l.Some? &&
            (xp < 0 ==> l.value.name == "Tokoh") &&
            (0 <= xp < 500 ==> l.value.name == "Muhibbin") &&
            (500 <= xp < 1500 ==> l.value.name == "Penggerak") &&
            (1500 <= xp < 3000 ==> l.value.name == "Aktivis") &&
            (3000 <= xp < 5000 ==> l.value.name == "Khodim") &&
            (5000 <= xp ==> l.value.name == "Tokoh")
  {
    var levels := RenderedLevels;
    assert levels[0].minXP == 5000 && levels[1].minXP == 3000 && levels[2].minXP == 1500;
    assert levels[3].minXP == 500 && levels[4].minXP == 0;
    var r := Reached(levels, xp);
    if xp < 0 {
      assert r.None?;
    } else {
      assert r.Some?;
      var k := r.value;
      assert levels[k].minXP <= xp;
      assert k == 0 || k == 1 || k == 2 || k == 3 || k == 4;
    }
  }

  // ---------------------------------------------------------------------------
  // List edits

  /** `prev.map(r => r.id === id ? { ...r, ...form } : r)` */
  function EditRules(rules: seq<XPRule>, id: string, form: XPForm): (r: seq<XPRule>)
    ensures |r| == |rules|
    ensures forall i :: 0 <= i < |rules| && rules[i].id == id ==>
              r[i] == XPRule(id, form.actionKey, form.title, form.xpValue, form.limit, rules[i].isActive)
    ensures forall i :: 0 <= i < |rules| && rules[i].id != id ==> r[i] == rules[i]
  {
    seq(|rules|, i requires 0 <= i < |rules| =>
      if rules[i].id == id
      then rules[i].(actionKey := form.actionKey, title := form.title, xpValue := form.xpValue, limit := form.limit)
      else rules[i])
  }

  /** `handleToggleXPRule(id)`'s map. */
  function ToggleRules(rules: seq<XPRule>, id: string): (r: seq<XPRule>)
    ensures |r| == |rules|
    ensures forall i :: 0 <= i < |rules| && rules[i].id == id ==> r[i] == rules[i].(isActive := !rules[i].isActive)
    ensures forall i :: 0 <= i < |rules| && rules[i].id != id ==> r[i] == rules[i]
  {
    seq(|rules|, i requires 0 <= i < |rules| =>
      if rules[i].id == id then rules[i].(isActive := !rules[i].isActive) else rules[i])
  }

  /** Toggling the same rule twice gives back the list. */
  lemma ToggleTwice(rules: seq<XPRule>, id: string)
    ensures ToggleRules(ToggleRules(rules, id), id) == rules
  {
    var once := ToggleRules(rules, id);
    var twice := ToggleRules(once, id);
    forall i | 0 <= i < |rules| ensures twice[i] == rules[i] {
      assert once[i].id == rules[i].id;
    }
  }

  /** The badge edit: the form's fields over the matching badge, with the users count of
      the badge the dialog was opened on. */
  function EditBadges(badges: seq<Badge>, id: string, form: BadgeForm, usersCount: int): (r: seq<Badge>)
    ensures |r| == |badges|
    ensures forall i :: 0 <= i < |badges| && badges[i].id == id ==>
              r[i] == Badge(id, form.name, form.icon, form.triggerType, form.conditionValue, usersCount)
    ensures forall i :: 0 <= i < |badges| && badges[i].id != id ==> r[i] == badges[i]
  {
    seq(|badges|, i requires 0 <= i < |badges| =>
      if badges[i].id == id
      then Badge(badges[i].id, form.name, form.icon, form.triggerType, form.conditionValue, usersCount)
      else badges[i])
  }

  /** The level edit, in place: no re-sorting. */
  function EditLevels(levels: seq<Level>, id: string, form: LevelForm): (r: seq<Level>)
    ensures |r| == |levels|
    ensures forall i :: 0 <= i < |levels| && levels[i].id == id ==>
              r[i] == Level(id, form.name, form.minXP, form.color)
    ensures forall i :: 0 <= i < |levels| && levels[i].id != id ==> r[i] == levels[i]
  {
    seq(|levels|, i requires 0 <= i < |levels| =>
      if levels[i].id == id then Level(levels[i].id, form.name, form.minXP, form.color) else levels[i])
  }

  // ---------------------------------------------------------------------------
  // Sorting levels by threshold

  predicate SortedByMinXP(levels: seq<Level>)
  {
    forall i, j :: 0 <= i < j < |levels| ==> levels[i].minXP <= levels[j].minXP
  }

  /** `l` placed after every level whose threshold is not above its own. */
  function Insert(sorted: seq<Level>, l: Level): (r: seq<Level>)
    requires SortedByMinXP(sorted)
    ensures SortedByMinXP(r)
    ensures multiset(r) == multiset(sorted) + multiset{l}
  {
    if sorted == [] then [l]
    else if l.minXP < sorted[0].minXP then [l] + sorted
    else
      var rest := Insert(sorted[1..], l);
      assert sorted == [sorted[0]] + sorted[1..];
      KeepsHead(sorted[0], sorted[1..], l, rest);
      [sorted[0]] + rest
  }

  /** A level that comes before every level of `tail` and before `l` still comes first
      when `l` is inserted into `tail`. */
  lemma KeepsHead(x: Level, tail: seq<Level>, l: Level, rest: seq<Level>)
    requires SortedByMinXP([x] + tail) && SortedByMinXP(rest)
    requires multiset(rest) == multiset(tail) + multiset{l}
    requires x.minXP <= l.minXP
    ensures SortedByMinXP([x] + rest)
  {
    forall j | 0 <= j < |rest|
      ensures x.minXP <= rest[j].minXP
    {
      assert rest[j] in multiset(rest);
      if rest[j] != l {
        assert rest[j] in multiset(tail);
        var k :| 0 <= k < |tail| && tail[k] == rest[j];
        assert ([x] + tail)[0] == x && ([x] + tail)[k + 1] == tail[k];
      }
    }
    forall i, j | 0 <= i < j < |[x] + rest|
      ensures ([x] + rest)[i].minXP <= ([x] + rest)[j].minXP
    {
      assert ([x] + rest)[j] == rest[j - 1];
      if i > 0 {
        assert ([x] + rest)[i] == rest[i - 1];
      }
    }
  }

  /** `levels.sort((a, b) => a.minXP - b.minXP)`: a stable sort by threshold. */
  function SortByMinXP(levels: seq<Level>): (r: seq<Level>)
    ensures SortedByMinXP(r)
    ensures multiset(r) == multiset(levels)
  {
    if levels == [] then []
    else
      var init := levels[..|levels| - 1];
      assert levels == init + [levels[|levels| - 1]];
      Insert(SortByMinXP(init), levels[|levels| - 1])
  }

  /** The test "has threshold `t`". */
  function AtMinXP(t: int): Level -> bool
  {
    (l: Level) => l.minXP == t
  }

  /** The sort is stable: levels that share a threshold keep the order they had. */
  lemma {:induction false} SortByMinXPStable(levels: seq<Level>, t: int)
    ensures Seqs.Filter(SortByMinXP(levels), AtMinXP(t)) == Seqs.Filter(levels, AtMinXP(t))
  {
    if levels != [] {
      var init := levels[..|levels| - 1];
      var last := levels[|levels| - 1];
      assert levels == init + [last];
      SortByMinXPStable(init, t);
      InsertStable(SortByMinXP(init), last, t);
      Seqs.FilterConcat(init, [last], AtMinXP(t));
    }
  }

  /** Inserting `l` puts it after every level of its own threshold. */
  lemma {:induction false} InsertStable(sorted: seq<Level>, l: Level, t: int)
    requires SortedByMinXP(sorted)
    ensures Seqs.Filter(Insert(sorted, l), AtMinXP(t)) ==
            Seqs.Filter(sorted, AtMinXP(t)) + Seqs.Filter([l], AtMinXP(t))
  {
    var p := AtMinXP(t);
    if sorted == [] {
    } else if l.minXP < sorted[0].minXP {
      assert Insert(sorted, l) == [l] + sorted;
      InsertFrontStable(sorted, l, t);
    } else {
      var tail := sorted[1..];
      assert sorted == [sorted[0]] + tail;
      SortedTail(sorted);
      var rest := Insert(tail, l);
      assert Insert(sorted, l) == [sorted[0]] + rest;
      InsertStable(tail, l, t);
      Seqs.FilterConcat([sorted[0]], rest, p);
      Seqs.FilterConcat([sorted[0]], tail, p);
    }
  }

  /** `l` placed in front of a sorted list whose thresholds are all above its own. */
  lemma InsertFrontStable(sorted: seq<Level>, l: Level, t: int)
    requires SortedByMinXP(sorted) && sorted != [] && l.minXP < sorted[0].minXP
    ensures Seqs.Filter([l] + sorted, AtMinXP(t)) ==
            Seqs.Filter(sorted, AtMinXP(t)) + Seqs.Filter([l], AtMinXP(t))
  {
    Seqs.FilterConcat([l], sorted, AtMinXP(t));
    if l.minXP == t {
      AboveHeadNotAt(sorted, t);
    }
  }

  /** What follows the first level of a sorted list is sorted. */
  lemma SortedTail(sorted: seq<Level>)
    requires SortedByMinXP(sorted) && sorted != []
    ensures SortedByMinXP(sorted[1..])
  {
    forall i, j | 0 <= i < j < |sorted| - 1
      ensures sorted[1..][i].minXP <= sorted[1..][j].minXP
    {
      assert sorted[1..][i] == sorted[i + 1] && sorted[1..][j] == sorted[j + 1];
    }
  }

  /** No level of a sorted list whose first threshold is above `t` has threshold `t`. */
  lemma AboveHeadNotAt(sorted: seq<Level>, t: int)
    requires SortedByMinXP(sorted) && sorted != [] && t < sorted[0].minXP
    ensures Seqs.Filter(sorted, AtMinXP(t)) == []
  {
    forall i | 0 <= i < |sorted|
      ensures !AtMinXP(t)(sorted[i])
    {
      assert sorted[0].minXP <= sorted[i].minXP;
    }
    Seqs.FilterNone(sorted, AtMinXP(t));
  }

  /** A list already in order is left as it is. */
  lemma {:induction false} SortSortedUnchanged(levels: seq<Level>)
    requires SortedByMinXP(levels)
    ensures SortByMinXP(levels) == levels
  {
    if levels != [] {
      var init := levels[..|levels| - 1];
      SortSortedUnchanged(init);
      InsertAtEnd(init, levels[|levels| - 1]);
      assert init + [levels[|levels| - 1]] == levels;
    }
  }

  lemma {:induction false} InsertAtEnd(sorted: seq<Level>, l: Level)
    requires SortedByMinXP(sorted)
    requires forall i :: 0 <= i < |sorted| ==> sorted[i].minXP <= l.minXP
    ensures Insert(sorted, l) == sorted + [l]
  {
    if sorted != [] {
      InsertAtEnd(sorted[1..], l);
      assert [sorted[0]] + (sorted[1..] + [l]) == sorted + [l];
    }
  }

  // ---------------------------------------------------------------------------
  // The page

  class GamificationPage {
    var xpRules: seq<XPRule>
    var badges: seq<Badge>
    var levels: seq<Level>
    var xpForm: XPForm
    var editingXP: Option<XPRule>
    var badgeForm: BadgeForm
    var editingBadge: Option<Badge>
    var levelForm: LevelForm
    var editingLevel: Option<Level>

    constructor()
      ensures xpRules == InitialXPRules && badges == InitialBadges && levels == InitialLevels
      ensures xpForm == BlankXPForm && editingXP == None
      ensures badgeForm == BlankBadgeForm && editingBadge == None
      ensures levelForm == BlankLevelForm && editingLevel == None
    {
      xpRules := InitialXPRules;
      badges := InitialBadges;
      levels := InitialLevels;
      xpForm := BlankXPForm;
      editingXP := None;
      badgeForm := BlankBadgeForm;
      editingBadge := None;
      levelForm := BlankLevelForm;
      editingLevel := None;
    }

    /** The XP dialog opened on a rule (its fields copied into the form) or for a new one. */
    method OpenXPRule(rule: Option<XPRule>)
      modifies this
      ensures editingXP == rule
      ensures rule.Some? ==> xpForm == XPForm(rule.value.actionKey, rule.value.title, rule.value.xpValue, rule.value.limit)
      ensures rule.None? ==> xpForm == BlankXPForm
      ensures xpRules == old(xpRules) && badges == old(badges) && levels == old(levels)
      ensures badgeForm == old(badgeForm) && editingBadge == old(editingBadge)
      ensures levelForm == old(levelForm) && editingLevel == old(editingLevel)
    {
      editingXP := rule;
      xpForm := if rule.Some? then XPForm(rule.value.actionKey, rule.value.title, rule.value.xpValue, rule.value.limit)
                else BlankXPForm;
    }

    method EditXPForm(form: XPForm)
      modifies this
      ensures xpForm == form && editingXP == old(editingXP)
      ensures xpRules == old(xpRules) && badges == old(badges) && levels == old(levels)
      ensures badgeForm == old(badgeForm) && editingBadge == old(editingBadge)
      ensures levelForm == old(levelForm) && editingLevel == old(editingLevel)
    {
      xpForm := form;
    }

    /** `handleSaveXPRule()`: an empty action key or title changes nothing; otherwise the
        rule being edited is overwritten, or a new active rule appended, and the dialog
        is reset. */
    method SaveXPRule(freshId: string)
      modifies this
      ensures old(xpForm.actionKey) == "" || old(xpForm.title) == "" ==>
                xpRules == old(xpRules) && xpForm == old(xpForm) && editingXP == old(editingXP)
      ensures old(xpForm.actionKey) != "" && old(xpForm.title) != "" ==>
                xpRules == (if old(editingXP).Some? then EditRules(old(xpRules), old(editingXP).value.id, old(xpForm))
                            else old(xpRules) + [XPRule(freshId, old(xpForm.actionKey), old(xpForm.title),
                                                        old(xpForm.xpValue), old(xpForm.limit), true)]) &&
                xpForm == BlankXPForm && editingXP == None
      ensures badges == old(badges) && levels == old(levels)
      ensures badgeForm == old(badgeForm) && editingBadge == old(editingBadge)
      ensures levelForm == old(levelForm) && editingLevel == old(editingLevel)
    {
      if xpForm.actionKey == "" || xpForm.title == "" {
        return;
      }
      if editingXP.Some? {
        xpRules := EditRules(xpRules, editingXP.value.id, xpForm);
      } else {
        xpRules := xpRules + [XPRule(freshId, xpForm.actionKey, xpForm.title, xpForm.xpValue, xpForm.limit, true)];
      }
      editingXP := None;
      xpForm := BlankXPForm;
    }

    /** `handleToggleXPRule(id)` */
    method ToggleXPRule(id: string)
      modifies this
      ensures xpRules == ToggleRules(old(xpRules), id)
      ensures xpForm == old(xpForm) && editingXP == old(editingXP)
      ensures badges == old(badges) && levels == old(levels)
      ensures badgeForm == old(badgeForm) && editingBadge == old(editingBadge)
      ensures levelForm == old(levelForm) && editingLevel == old(editingLevel)
    {
      xpRules := ToggleRules(xpRules, id);
    }

    /** The badge dialog opened on a badge or for a new one. */
    method OpenBadge(badge: Option<Badge>)
      modifies this
      ensures editingBadge == badge
      ensures badge.Some? ==>
                badgeForm == BadgeForm(badge.value.name, badge.value.icon, badge.value.triggerType, badge.value.conditionValue)
      ensures badge.None? ==> badgeForm == BlankBadgeForm
      ensures xpRules == old(xpRules) && badges == old(badges) && levels == old(levels)
      ensures xpForm == old(xpForm) && editingXP == old(editingXP)
      ensures levelForm == old(levelForm) && editingLevel == old(editingLevel)
    {
      editingBadge := badge;
      badgeForm := if badge.Some? then BadgeForm(badge.value.name, badge.value.icon, badge.value.triggerType, badge.value.conditionValue)
                   else BlankBadgeForm;
    }

    method EditBadgeForm(form: BadgeForm)
      modifies this
      ensures badgeForm == form && editingBadge == old(editingBadge)
      ensures xpRules == old(xpRules) && badges == old(badges) && levels == old(levels)
      ensures xpForm == old(xpForm) && editingXP == old(editingXP)
      ensures levelForm == old(levelForm) && editingLevel == old(editingLevel)
    {
      badgeForm := form;
    }

    /** `handleSaveBadge()`: an empty name changes nothing; an edited badge keeps the users
        count it had when the dialog opened, a new badge starts at zero. */
    method SaveBadge(freshId: string)
      modifies this
      ensures old(badgeForm.name) == "" ==>
                badges == old(badges) && badgeForm == old(badgeForm) && editingBadge == old(editingBadge)
      ensures old(badgeForm.name) != "" ==>
                badges == (if old(editingBadge).Some?
                           then EditBadges(old(badges), old(editingBadge).value.id, old(badgeForm), old(editingBadge).value.usersCount)
                           else old(badges) + [Badge(freshId, old(badgeForm.name), old(badgeForm.icon),
                                                     old(badgeForm.triggerType), old(badgeForm.conditionValue), 0)]) &&
                badgeForm == BlankBadgeForm && editingBadge == None
      ensures xpRules == old(xpRules) && levels == old(levels)
      ensures xpForm == old(xpForm) && editingXP == old(editingXP)
      ensures levelForm == old(levelForm) && editingLevel == old(editingLevel)
    {
      if badgeForm.name == "" {
        return;
      }
      if editingBadge.Some? {
        badges := EditBadges(badges, editingBadge.value.id, badgeForm, editingBadge.value.usersCount);
      } else {
        badges := badges + [Badge(freshId, badgeForm.name, badgeForm.icon, badgeForm.triggerType, badgeForm.conditionValue, 0)];
      }
      editingBadge := None;
      badgeForm := BlankBadgeForm;
    }

    /** The level dialog opened on a level or for a new one. */
    method OpenLevel(level: Option<Level>)
      modifies this
      ensures editingLevel == level
      ensures level.Some? ==> levelForm == LevelForm(level.value.name, level.value.minXP, level.value.color)
      ensures level.None? ==> levelForm == BlankLevelForm
      ensures xpRules == old(xpRules) && badges == old(badges) && levels == old(levels)
      ensures xpForm == old(xpForm) && editingXP == old(editingXP)
      ensures badgeForm == old(badgeForm) && editingBadge == old(editingBadge)
    {
      editingLevel := level;
      levelForm := if level.Some? then LevelForm(level.value.name, level.value.minXP, level.value.color)
                   else BlankLevelForm;
    }

    method EditLevelForm(form: LevelForm)
      modifies this
      ensures levelForm == form && editingLevel == old(editingLevel)
      ensures xpRules == old(xpRules) && badges == old(badges) && levels == old(levels)
      ensures xpForm == old(xpForm) && editingXP == old(editingXP)
      ensures badgeForm == old(badgeForm) && editingBadge == old(editingBadge)
    {
      levelForm := form;
    }

    /** `handleSaveLevel()`: an empty name changes nothing; an edited level is changed in
        place; a new level is appended and the whole list sorted by threshold. */
    method SaveLevel(freshId: string)
      modifies this
      ensures old(levelForm.name) == "" ==>
                levels == old(levels) && levelForm == old(levelForm) && editingLevel == old(editingLevel)
      ensures old(levelForm.name) != "" && old(editingLevel).Some? ==>
                levels == EditLevels(old(levels), old(editingLevel).value.id, old(levelForm))
      ensures old(levelForm.name) != "" && old(editingLevel).None? ==>
                levels == SortByMinXP(old(levels) + [Level(freshId, old(levelForm.name), old(levelForm.minXP), old(levelForm.color))])
      ensures old(levelForm.name) != "" ==> levelForm == BlankLevelForm && editingLevel == None
      ensures xpRules == old(xpRules) && badges == old(badges)
      ensures xpForm == old(xpForm) && editingXP == old(editingXP)
      ensures badgeForm == old(badgeForm) && editingBadge == old(editingBadge)
    {
      if levelForm.name == "" {
        return;
      }
      if editingLevel.Some? {
        levels := EditLevels(levels, editingLevel.value.id, levelForm);
      } else {
        levels := SortByMinXP(levels + [Level(freshId, levelForm.name, levelForm.minXP, levelForm.color)]);
      }
      editingLevel := None;
      levelForm := BlankLevelForm;
    }
  }

  /** Adding a level to a list in threshold order puts it after every level with a
      threshold not above its own and before the rest: the others keep their order. */
  lemma {:induction false} AddLevelToSortedList(levels: seq<Level>, l: Level)
    requires SortedByMinXP(levels)
    ensures SortByMinXP(levels + [l]) == Insert(levels, l)
  {
    var s := levels + [l];
    assert s[..|s| - 1] == levels;
    SortSortedUnchanged(levels);
  }
}
