// Masking of personal data for display (src/lib/privacy-utils.ts): phone
// numbers, e-mail addresses and names. A `null` or `undefined` argument is
// `None`; like the empty string it is shown as "-".

module Privacy {
  import opened Wrappers
  import Js
  import Seqs

  const Absent: string := "-"

  /** `phone.replace(/\D/g, '')`: the ASCII digits of `s`, in order. */
  function Digits(s: string): (d: string)
    ensures forall i :: 0 <= i < |d| ==> Js.IsDigit(d[i])
  {
    Seqs.Filter(s, Js.IsDigit)
  }

  /** `maskPhoneNumber(phone)` */
  function MaskPhoneNumber(phone: Option<string>): (r: string)
    ensures phone.None? || phone == Some("") ==> r == Absent
    ensures phone.Some? && phone.value != "" && |Digits(phone.value)| < 6 ==> r == phone.value
    ensures phone.Some? && |Digits(phone.value)| >= 6 ==>
              var d := Digits(phone.value);
              |r| == 11 && r[..4] == d[..4] && r[4..8] == "****" && r[8..] == d[|d| - 3..] &&
              forall i :: 0 <= i < |r| ==> Js.IsDigit(r[i]) || r[i] == '*'
  {
    if phone.None? || phone.value == "" then Absent
    else
      var clean := Digits(phone.value);
      if |clean| < 6 then phone.value
      else Js.SliceFirst(clean, 4) + "****" + Js.SliceLast(clean, 3)
  }

  /** Masking an already masked number gives it back unchanged: its seven visible
      digits are again enough to mask, and they are the same first four and last three. */
  lemma MaskPhoneIdempotent(phone: string)
    requires |Digits(phone)| >= 6
    ensures MaskPhoneNumber(Some(MaskPhoneNumber(Some(phone)))) == MaskPhoneNumber(Some(phone))
  {
    var m := MaskPhoneNumber(Some(phone));
    var d := Digits(phone);
    assert m == d[..4] + "****" + d[|d| - 3..];
    DigitsAroundStars(d[..4], d[|d| - 3..]);
  }

  /** The digits of a string of digits, four stars and more digits are the two digit runs. */
  lemma DigitsAroundStars(head: string, tail: string)
    requires forall i :: 0 <= i < |head| ==> Js.IsDigit(head[i])
    requires forall i :: 0 <= i < |tail| ==> Js.IsDigit(tail[i])
    ensures Digits(head + "****" + tail) == head + tail
  {
    var stars := "****";
    assert forall i :: 0 <= i < |stars| ==> stars[i] == '*';
    Seqs.FilterNone(stars, Js.IsDigit);
    Seqs.FilterAll(head, Js.IsDigit);
    Seqs.FilterAll(tail, Js.IsDigit);
    Seqs.FilterConcat(head, stars, Js.IsDigit);
    assert Seqs.Filter(head + stars, Js.IsDigit) == head;
    Seqs.FilterConcat(head + stars, tail, Js.IsDigit);
  }

  /** `maskEmail(email)` */
  function MaskEmail(email: Option<string>): (r: string)
    ensures email.None? || email == Some("") ==> r == Absent
    ensures email.Some? && email.value != "" && ('@' !in email.value || email.value[0] == '@') ==>
              r == email.value
  {
    if email.None? || email.value == "" then Absent
    else
      var e := email.value;
      var at := Js.IndexOf(e, '@');
      if at < 1 then e
      else
        var localPart := e[..at];
        var domainPart := e[at..];
        if |localPart| <= 3 then [localPart[0]] + "***" + domainPart
        else localPart[..3] + "***" + domainPart
  }

  /** A well-formed address keeps everything from its first '@' verbatim and shows one
      character of a local part of up to three characters, three of a longer one; so a
      local part of two or more characters always has at least one character hidden. */
  lemma MaskEmailReveals(e: string)
    requires '@' in e && e[0] != '@'
    ensures var at := Js.IndexOf(e, '@');
            var shown := if at <= 3 then 1 else 3;
            MaskEmail(Some(e)) == e[..shown] + "***" + e[at..] &&
            1 <= shown <= 3 && (at >= 2 ==> shown < at) && '@' !in e[..shown]
  {
    var at := Js.IndexOf(e, '@');
    var localPart := e[..at];
    if at <= 3 {
      assert [localPart[0]] == e[..1] == localPart[..1];
    } else {
      assert localPart[..3] == e[..3];
    }
  }

  // ---------------------------------------------------------------------------
  // Names

  /** One space-separated part of `maskName`, as written. */
  function MaskPart(part: string): (r: string)
    ensures |part| <= 2 ==> r == part
    ensures |part| > 2 ==> |r| == (if |part| > 4 then 7 else 5) && r[..3] == part[..3] && r[3..5] == "**"
    ensures forall c :: c in r ==> c in part || c == '*'
  {
    if |part| <= 2 then part
    else
      var r := Js.SliceFirst(part, 3) + "**" + (if |part| > 4 then Js.SliceLast(part, 2) else "");
      assert forall c :: c in r ==> c in part || c == '*' by {
        forall c | c in r ensures c in part || c == '*' {
          var i :| 0 <= i < |r| && r[i] == c;
          if i >= 5 { assert r[i] == part[|part| - 2 + (i - 5)]; }
        }
      }
      r
  }

  function MaskParts(parts: seq<string>, mask: string -> string): (r: seq<string>)
    ensures |r| == |parts| && forall i :: 0 <= i < |parts| ==> r[i] == mask(parts[i])
  {
    seq(|parts|, i requires 0 <= i < |parts| => mask(parts[i]))
  }

  /** `maskName(name)`, as written. */
  function MaskName(name: Option<string>): (r: string)
    ensures name.None? || name == Some("") ==> r == Absent
  {
    if name.None? || name.value == "" then Absent
    else Js.Join(MaskParts(Js.Split(name.value, ' '), MaskPart), ' ')
  }

  /** Masking keeps the number of space-separated parts, and the i-th part of the result
      is the i-th part of the name masked on its own (so parts of up to two characters,
      the empty parts between repeated spaces included, come through unchanged). */
  lemma {:induction false} MaskNameKeepsParts(name: string)
    requires name != ""
    ensures var parts := Js.Split(name, ' ');
            var masked := Js.Split(MaskName(Some(name)), ' ');
            |masked| == |parts| && forall i :: 0 <= i < |parts| ==> masked[i] == MaskPart(parts[i])
  {
    var parts := Js.Split(name, ' ');
    var ms := MaskParts(parts, MaskPart);
    Js.SplitPartsHaveNoSep(name, ' ');
    forall i | 0 <= i < |ms| ensures ' ' !in ms[i] {
      assert ' ' !in parts[i];
    }
    Js.SplitJoin(ms, ' ');
  }

  /** As written, a five-character part is shown in full: the first three characters and
      the last two together are the whole part, with "**" inserted between them. A
      two-word name of five-letter words such as "Ahmad Fauzi" therefore becomes
      "Ahm**ad Fau**zi". */
  lemma FiveLetterWordsShownInFull(first: string, last: string)
    requires |first| == 5 && |last| == 5 && ' ' !in first && ' ' !in last
    ensures MaskName(Some(first + " " + last)) ==
            first[..3] + "**" + first[3..] + " " + last[..3] + "**" + last[3..]
  {
    TwoWords(first, last, MaskPart);
    var f := MaskPart(first);
    var l := MaskPart(last);
    FivePart(first);
    FivePart(last);
    assert f + " " + l == f + " " + last[..3] + "**" + last[3..];
  }

  /** A five-character part masked as written is its first three characters, "**" and
      its last two. */
  lemma FivePart(part: string)
    requires |part| == 5
    ensures MaskPart(part) == part[..3] + "**" + part[3..]
  {
    assert Js.SliceLast(part, 2) == part[3..];
  }

  /** A name of two space-free words is masked word by word, with the space kept. */
  lemma TwoWords(first: string, last: string, mask: string -> string)
    requires ' ' !in first && ' ' !in last
    ensures Js.Join(MaskParts(Js.Split(first + " " + last, ' '), mask), ' ') == mask(first) + " " + mask(last)
  {
    Js.SplitTwo(first, last, ' ');
    assert MaskParts([first, last], mask) == [mask(first), mask(last)];
    assert [mask(first), mask(last)][1..] == [mask(last)];
  }

  /** One part masked as the function's own documentation describes it ("Ahmad" shown as
      "Ahm**"): at most the first three characters stay visible. */
  function MaskPartAsDocumented(part: string): (r: string)
    ensures |part| <= 2 ==> r == part
    ensures |part| > 2 ==> |r| == 5 && r[..3] == part[..3] && r[3..] == "**"
  {
    if |part| <= 2 then part else Js.SliceFirst(part, 3) + "**"
  }

  /** `maskName` with the documented masking of each part. */
  function MaskNameAsDocumented(name: Option<string>): (r: string)
    ensures name.None? || name == Some("") ==> r == Absent
  {
    if name.None? || name.value == "" then Absent
    else Js.Join(MaskParts(Js.Split(name.value, ' '), MaskPartAsDocumented), ' ')
  }

  /** The documented masking keeps the parts apart, and a two-word name of words longer
      than two characters shows the first three characters of each word followed by "**",
      as in "Ahmad Fauzi" shown as "Ahm** Fau**". */
  lemma {:induction false} MaskNameAsDocumentedKeepsParts(name: string)
    requires name != ""
    ensures var parts := Js.Split(name, ' ');
            var masked := Js.Split(MaskNameAsDocumented(Some(name)), ' ');
            |masked| == |parts| && forall i :: 0 <= i < |parts| ==> masked[i] == MaskPartAsDocumented(parts[i])
  {
    var parts := Js.Split(name, ' ');
    var ms := MaskParts(parts, MaskPartAsDocumented);
    Js.SplitPartsHaveNoSep(name, ' ');
    forall i | 0 <= i < |ms| ensures ' ' !in ms[i] {
      assert ' ' !in parts[i];
      assert |parts[i]| > 2 ==> ms[i] == parts[i][..3] + "**";
    }
    Js.SplitJoin(ms, ' ');
  }

  lemma DocumentedTwoWordExample(first: string, last: string)
    requires |first| > 2 && |last| > 2 && ' ' !in first && ' ' !in last
    ensures MaskNameAsDocumented(Some(first + " " + last)) == first[..3] + "** " + last[..3] + "**"
  {
    TwoWords(first, last, MaskPartAsDocumented);
    var f := MaskPartAsDocumented(first);
    assert f == first[..3] + "**";
    assert f + " " == first[..3] + "** ";
  }
}
