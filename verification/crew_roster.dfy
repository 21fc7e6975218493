// The media crew roster (src/components/media-dashboard/ManajemenKru.tsx): a
// list of at most three members, the first of them the coordinator, appended
// to from an "add member" dialog and filtered by a per-member delete button.
// The capacity is enforced by the screen's buttons, not by the add handler:
// the dialog can only be opened while a slot is free. Member ids come from
// `Date.now()` and are taken here as a fresh-id parameter.

module CrewRoster {
  import Js
  import Seqs

  datatype CrewMember = CrewMember(id: string, name: string, whatsapp: string, role: string,
                                   skills: seq<string>, avatar: string)

  /** The draft held by the add-member dialog. */
  datatype Draft = Draft(name: string, whatsapp: string, skill: string)

  const Capacity: int := 3
  const Coordinator: string := "Koordinator"
  const Member: string := "Anggota"
  const EmptyDraft: Draft := Draft("", "", "")

  const SkillOptions: seq<string> :=
    ["Editor Video", "Desainer Grafis", "Fotografer", "Content Writer", "Social Media", "Videografi"]

  /** The roster's initial content: the coordinator alone. */
  const InitialCoordinator: CrewMember :=
    CrewMember("1", "Ahmad Fauzi", "081234567890", Coordinator, ["Videografi", "Editor"], "AF")

  // ---------------------------------------------------------------------------
  // Avatar initials

  /** `parts.map(n => n[0]).join("")`: the first character of each part; an empty
      part contributes `undefined`, which joins as the empty string. */
  function Initials(parts: seq<string>): string
  {
    if parts == [] then ""
    else (if parts[0] == "" then "" else [parts[0][0]]) + Initials(parts[1..])
  }

  /** A new member's avatar: the initials of the space-separated name, uppercased, at most two. */
  function Avatar(name: string): (r: string)
    ensures |r| <= 2
  {
    Js.SliceFirst(Js.Upper(Initials(Js.Split(name, ' '))), 2)
  }

  predicate NonEmpty(s: string)
  {
    s != ""
  }

  /** The first characters of a list of non-empty words. */
  function Firsts(words: seq<string>): (r: string)
    requires forall i :: 0 <= i < |words| ==> words[i] != ""
    ensures |r| == |words| && forall i :: 0 <= i < |words| ==> r[i] == words[i][0]
  {
    seq(|words|, i requires 0 <= i < |words| => words[i][0])
  }

  /** The initials are the first characters of the non-empty parts, in order. */
  lemma {:induction false} InitialsOfWords(parts: seq<string>)
    ensures Initials(parts) == Firsts(Seqs.Filter(parts, NonEmpty))
  {
    if parts != [] {
      InitialsOfWords(parts[1..]);
      var rest := Seqs.Filter(parts[1..], NonEmpty);
      if parts[0] != "" {
        assert Seqs.Filter(parts, NonEmpty) == [parts[0]] + rest;
        assert Firsts([parts[0]] + rest) == [parts[0][0]] + Firsts(rest);
      }
    }
  }

  /** The avatar holds the uppercased first letters of the first two words of the name,
      empty words (from repeated spaces) skipped. */
  lemma AvatarMeaning(name: string)
    ensures var words := Seqs.Filter(Js.Split(name, ' '), NonEmpty);
            |Avatar(name)| == (if |words| < 2 then |words| else 2) &&
            forall i :: 0 <= i < |Avatar(name)| ==> Avatar(name)[i] == Js.UpperChar(words[i][0])
  {
    InitialsOfWords(Js.Split(name, ' '));
  }

  /** A two-word name gives the uppercased first letters of both words, as the
      coordinator's "Ahmad Fauzi" gives "AF". */
  lemma TwoWordAvatar(first: string, last: string)
    requires first != "" && last != "" && ' ' !in first && ' ' !in last
    ensures Avatar(first + " " + last) == [Js.UpperChar(first[0]), Js.UpperChar(last[0])]
  {
    var name := first + " " + last;
    Js.SplitTwo(first, last, ' ');
    assert [first, last][1..] == [last];
    assert Initials([last]) == [last[0]] by {
      assert [last][1..] == [];
    }
    assert Initials([first, last]) == [first[0]] + [last[0]];
  }

  // ---------------------------------------------------------------------------
  // The roster

  predicate DistinctIds(ms: seq<CrewMember>)
  {
    forall i, j :: 0 <= i < j < |ms| ==> ms[i].id != ms[j].id
  }

  predicate HasId(ms: seq<CrewMember>, id: string)
  {
    exists i :: 0 <= i < |ms| && ms[i].id == id
  }

  /** Removing members by id keeps the remaining ids distinct. */
  lemma {:induction false} FilterKeepsDistinct(ms: seq<CrewMember>, p: CrewMember -> bool)
    requires DistinctIds(ms)
    ensures DistinctIds(Seqs.Filter(ms, p))
    decreases |ms|
  {
    if ms != [] {
      FilterKeepsDistinct(ms[1..], p);
      var rest := Seqs.Filter(ms[1..], p);
      forall m | m in rest
        ensures m.id != ms[0].id
      {
        var k :| 0 <= k < |ms[1..]| && ms[1..][k] == m;
        assert ms[k + 1] == m;
      }
    }
  }

  class Roster {
    var members: seq<CrewMember>
    var dialogOpen: bool
    var draft: Draft

    /** At most three members, the coordinator first and members after it, distinct ids,
        and the dialog open only while a slot is free. */
    predicate Valid()
      reads this
    {
      1 <= |members| <= Capacity &&
      members[0].role == Coordinator &&
      (forall i :: 1 <= i < |members| ==> members[i].role == Member) &&
      DistinctIds(members) &&
      (dialogOpen ==> |members| < Capacity)
    }

    function RemainingSlots(): (n: int)
      reads this
      ensures Valid() ==> 0 <= n <= Capacity - 1
    {
      Capacity - |members|
    }

    constructor()
      ensures members == [InitialCoordinator] && !dialogOpen && draft == EmptyDraft
      ensures Valid()
    {
      members := [InitialCoordinator];
      dialogOpen := false;
      draft := EmptyDraft;
    }

    /** The add trigger and the empty-slot cards, both offered only while a slot is free. */
    method OpenDialog()
      requires Valid() && RemainingSlots() > 0
      modifies this
      ensures dialogOpen && members == old(members) && draft == old(draft)
      ensures Valid()
    {
      dialogOpen := true;
    }

    /** Dismissing the dialog keeps the draft. */
    method CloseDialog()
      requires Valid()
      modifies this
      ensures !dialogOpen && members == old(members) && draft == old(draft)
      ensures Valid()
    {
      dialogOpen := false;
    }

    /** The dialog's inputs: the name and number fields and the skill selector. */
    method EditDraft(name: string, whatsapp: string, skill: string)
      requires Valid() && dialogOpen
      requires skill == draft.skill || skill in SkillOptions
      modifies this
      ensures draft == Draft(name, whatsapp, skill)
      ensures members == old(members) && dialogOpen
      ensures Valid()
    {
      draft := Draft(name, whatsapp, skill);
    }

    /** `handleAddMember`, run from the dialog's submit button. */
    method HandleAddMember(freshId: string)
      requires Valid() && dialogOpen
      requires !HasId(members, freshId)
      modifies this
      ensures Valid()
      ensures old(draft.name == "" || draft.whatsapp == "" || draft.skill == "") ==>
                members == old(members) && draft == old(draft) && dialogOpen
      ensures old(draft.name != "" && draft.whatsapp != "" && draft.skill != "") ==>
                members == old(members) + [CrewMember(freshId, old(draft.name), old(draft.whatsapp), Member,
                                                      [old(draft.skill)], Avatar(old(draft.name)))] &&
                draft == EmptyDraft && !dialogOpen
    {
      if draft.name == "" || draft.whatsapp == "" || draft.skill == "" {
        return;
      }
      var member := CrewMember(freshId, draft.name, draft.whatsapp, Member, [draft.skill], Avatar(draft.name));
      members := members + [member];
      draft := EmptyDraft;
      dialogOpen := false;
    }

    /** `handleDeleteMember(id)`, offered on every card whose role is not the coordinator's. */
    method HandleDeleteMember(id: string)
      requires Valid()
      requires exists i :: 0 <= i < |members| && members[i].id == id && members[i].role != Coordinator
      modifies this
      ensures members == Seqs.Filter(old(members), (m: CrewMember) => m.id != id)
      ensures forall m :: m in members <==> m in old(members) && m.id != id
      ensures members[0] == old(members)[0]
      ensures dialogOpen == old(dialogOpen) && draft == old(draft)
      ensures Valid()
    {
      var keep := (m: CrewMember) => m.id != id;
      var k :| 0 <= k < |members| && members[k].id == id && members[k].role != Coordinator;
      assert k != 0;
      var before := members;
      members := Seqs.Filter(before, keep);
      forall m ensures m in members <==> m in before && m.id != id {
        Seqs.FilterMember(before, keep, m);
      }
      FilterKeepsDistinct(before, keep);
      assert members == [before[0]] + Seqs.Filter(before[1..], keep);
      forall i | 1 <= i < |members|
        ensures members[i].role == Member
      {
        var m := members[i];
        assert m in Seqs.Filter(before[1..], keep);
        var j :| 0 <= j < |before[1..]| && before[1..][j] == m;
        assert before[j + 1] == m;
      }
    }
  }
}
