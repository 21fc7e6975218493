// Shared vocabulary: an optional value, the JavaScript string operations the
// application relies on, and the array filter used by every list handler.

module Wrappers {
  /** A value that may be absent (`null`/`undefined` in the application). */
  datatype Option<+T> = None | Some(value: T)
}

/** The JavaScript string operations used by the application, over `seq<char>`. */
module Js {
  import Seqs

  /** JavaScript's WhiteSpace and LineTerminator characters: what `trim()` removes
      and what the regular-expression class `\s` matches. */
  predicate IsWhitespace(c: char)
  {
    c == '\t' || c == '\n' || c == '\U{000B}' || c == '\U{000C}' || c == '\r' || c == ' ' ||
    c == '\U{00A0}' || c == '\U{1680}' || ('\U{2000}' <= c <= '\U{200A}') ||
    c == '\U{2028}' || c == '\U{2029}' || c == '\U{202F}' || c == '\U{205F}' ||
    c == '\U{3000}' || c == '\U{FEFF}'
  }

  predicate AllWhitespace(s: string)
  {
    forall i :: 0 <= i < |s| ==> IsWhitespace(s[i])
  }

  /** How many whitespace characters `s` starts with. */
  function LeadingSpace(s: string): (n: nat)
    ensures n <= |s|
  {
    if s == [] || !IsWhitespace(s[0]) then 0 else 1 + LeadingSpace(s[1..])
  }

  /** How many whitespace characters `s` ends with. */
  function TrailingSpace(s: string): (n: nat)
    ensures n <= |s|
  {
    if s == [] || !IsWhitespace(s[|s| - 1]) then 0 else 1 + TrailingSpace(s[..|s| - 1])
  }

  /** The leading run is whitespace and is followed by a character that is not. */
  lemma {:induction false} LeadingSpaceSpec(s: string)
    ensures forall j :: 0 <= j < LeadingSpace(s) ==> IsWhitespace(s[j])
    ensures LeadingSpace(s) < |s| ==> !IsWhitespace(s[LeadingSpace(s)])
    decreases |s|
  {
    if s != [] && IsWhitespace(s[0]) {
      var t := s[1..];
      LeadingSpaceSpec(t);
      var n := LeadingSpace(s);
      assert n == 1 + LeadingSpace(t);
      forall j | 0 <= j < n ensures IsWhitespace(s[j]) {
        if j > 0 {
          assert s[j] == t[j - 1];
        }
      }
      if n < |s| {
        assert s[n] == t[n - 1];
      }
    }
  }

  /** The trailing run is whitespace and is preceded by a character that is not. */
  lemma {:induction false} TrailingSpaceSpec(s: string)
    ensures forall j :: |s| - TrailingSpace(s) <= j < |s| ==> IsWhitespace(s[j])
    ensures TrailingSpace(s) < |s| ==> !IsWhitespace(s[|s| - TrailingSpace(s) - 1])
    decreases |s|
  {
    if s != [] && IsWhitespace(s[|s| - 1]) {
      var t := s[..|s| - 1];
      TrailingSpaceSpec(t);
      var n := TrailingSpace(s);
      assert n == 1 + TrailingSpace(t);
      forall j | |s| - n <= j < |s| ensures IsWhitespace(s[j]) {
        if j < |s| - 1 {
          assert s[j] == t[j];
        }
      }
      if n < |s| {
        assert s[|s| - n - 1] == t[|t| - TrailingSpace(t) - 1];
      }
    }
  }

  /** `s.trimStart()`: `s` without its leading whitespace. */
  function TrimStart(s: string): (r: string)
  {
    s[LeadingSpace(s)..]
  }

  /** `trimStart` removes only whitespace and stops at the first character that is not. */
  lemma TrimStartTrims(s: string)
    ensures var r := TrimStart(s);
            (r == [] || !IsWhitespace(r[0])) && AllWhitespace(s[..|s| - |r|])
  {
    LeadingSpaceSpec(s);
    var n := LeadingSpace(s);
    assert forall j :: 0 <= j < n ==> s[..n][j] == s[j];
  }

  /** `s.trimEnd()`: `s` without its trailing whitespace. */
  function TrimEnd(s: string): (r: string)
  {
    s[..|s| - TrailingSpace(s)]
  }

  /** `trimEnd` removes only whitespace and stops at the last character that is not. */
  lemma TrimEndTrims(s: string)
    ensures var r := TrimEnd(s);
            (r == [] || !IsWhitespace(r[|r| - 1])) && AllWhitespace(s[|r|..])
  {
    TrailingSpaceSpec(s);
    var k := |s| - TrailingSpace(s);
    assert forall j :: 0 <= j < |s| - k ==> s[k..][j] == s[k + j];
  }

  /** `s.trim()` */
  function Trim(s: string): string
  {
    TrimEnd(TrimStart(s))
  }

  /** `!s.trim()` holds exactly when every character of `s` is whitespace. */
  lemma TrimEmptyIff(s: string)
    ensures Trim(s) == "" <==> AllWhitespace(s)
  {
    var t := TrimStart(s);
    TrimStartTrims(s);
    TrimEndTrims(t);
    if Trim(s) == "" {
      assert AllWhitespace(t[0..]);
      assert t == [];
      assert s[..|s|] == s;
    }
  }

  /** A single space trims to the empty string. */
  lemma TrimSpace()
    ensures Trim(" ") == ""
  {
    TrimEmptyIff(" ");
    assert AllWhitespace(" ") by {
      assert IsWhitespace(" "[0]);
    }
  }

  /** The trimmed string contains no leading and no trailing whitespace and sits inside `s`. */
  lemma TrimShape(s: string)
    ensures |Trim(s)| <= |s|
    ensures Trim(s) == [] || (!IsWhitespace(Trim(s)[0]) && !IsWhitespace(Trim(s)[|Trim(s)| - 1]))
  {
    var t := TrimStart(s);
    var r := TrimEnd(t);
    TrimStartTrims(s);
    TrimEndTrims(t);
    if r != [] {
      assert r[0] == t[0];
    }
  }

  predicate IsDigit(c: char)
  {
    '0' <= c <= '9'
  }

  predicate IsAsciiLetter(c: char)
  {
    ('a' <= c <= 'z') || ('A' <= c <= 'Z')
  }

  /** `toUpperCase()` on one character, for the ASCII letters. */
  function UpperChar(c: char): (u: char)
    ensures 'a' <= c <= 'z' ==> 'A' <= u <= 'Z' && u as int == c as int - 32
    ensures !('a' <= c <= 'z') ==> u == c
  {
    if 'a' <= c <= 'z' then (c as int - 32) as char else c
  }

  /** `toLowerCase()` on one character, for the ASCII letters. */
  function LowerChar(c: char): (l: char)
    ensures 'A' <= c <= 'Z' ==> 'a' <= l <= 'z' && l as int == c as int + 32
    ensures !('A' <= c <= 'Z') ==> l == c
  {
    if 'A' <= c <= 'Z' then (c as int + 32) as char else c
  }

  function Upper(s: string): (r: string)
    ensures |r| == |s| && forall i :: 0 <= i < |s| ==> r[i] == UpperChar(s[i])
  {
    seq(|s|, i requires 0 <= i < |s| => UpperChar(s[i]))
  }

  function Lower(s: string): (r: string)
    ensures |r| == |s| && forall i :: 0 <= i < |s| ==> r[i] == LowerChar(s[i])
  {
    seq(|s|, i requires 0 <= i < |s| => LowerChar(s[i]))
  }

  /** `s.includes(t)` */
  predicate Contains(s: string, t: string)
  {
    exists i :: 0 <= i <= |s| - |t| && OccursAt(s, t, i)
  }

  /** `t` occurs in `s` starting at position `i`. */
  predicate OccursAt(s: string, t: string, i: int)
  {
    0 <= i <= |s| - |t| && s[i..i + |t|] == t
  }

  /** `s.indexOf(c)`: the first position of `c`, or -1. */
  function IndexOf(s: string, c: char): (k: int)
    ensures -1 <= k < |s|
    ensures k == -1 <==> c !in s
    ensures k >= 0 ==> s[k] == c
    ensures forall j :: 0 <= j < k ==> s[j] != c
  {
    if s == [] then -1
    else if s[0] == c then 0
    else
      var k := IndexOf(s[1..], c);
      if k == -1 then -1
      else k + 1
  }

  /** `s.slice(-n)` for `n > 0`: the last `n` characters, or all of `s` when shorter. */
  function SliceLast(s: string, n: nat): (r: string)
    ensures |r| == if |s| < n then |s| else n
    ensures r == s[|s| - |r|..]
  {
    if |s| < n then s else s[|s| - n..]
  }

  /** `s.slice(0, n)`: the first `n` characters, or all of `s` when shorter. */
  function SliceFirst(s: string, n: nat): (r: string)
    ensures |r| == if |s| < n then |s| else n
    ensures r == s[..|r|]
  {
    if |s| < n then s else s[..n]
  }

  /** `a` sorts no later than `b` in the default order of `Array.prototype.sort`, which
      compares strings code unit by code unit, a proper prefix first. */
  predicate CodeUnitLessEq(a: string, b: string)
  {
    a == b ||
    exists k :: 0 <= k <= |a| && k <= |b| && a[..k] == b[..k] && (k == |a| || (k < |b| && a[k] < b[k]))
  }

  /** Any two strings are ordered one way or the other. */
  lemma {:induction false} CodeUnitTotal(a: string, b: string)
    ensures CodeUnitLessEq(a, b) || CodeUnitLessEq(b, a)
    decreases |a|
  {
    if a == [] {
      assert a[..0] == b[..0];
    } else if b == [] {
      assert b[..0] == a[..0];
    } else if a[0] != b[0] {
      assert a[..0] == b[..0];
    } else {
      CodeUnitTotal(a[1..], b[1..]);
      if CodeUnitLessEq(a[1..], b[1..]) {
        LiftLessEq(a, b);
      } else {
        LiftLessEq(b, a);
      }
    }
  }

  /** Two strings with the same first character are ordered as their remainders are. */
  lemma LiftLessEq(a: string, b: string)
    requires a != [] && b != [] && a[0] == b[0]
    requires CodeUnitLessEq(a[1..], b[1..])
    ensures CodeUnitLessEq(a, b)
  {
    if a[1..] == b[1..] {
      assert a == [a[0]] + a[1..] && b == [b[0]] + b[1..];
    } else {
      var k :| 0 <= k <= |a[1..]| && k <= |b[1..]| && a[1..][..k] == b[1..][..k] &&
               (k == |a[1..]| || (k < |b[1..]| && a[1..][k] < b[1..][k]));
      assert a[..k + 1] == [a[0]] + a[1..][..k] && b[..k + 1] == [b[0]] + b[1..][..k];
    }
  }

  /** Every string sorts no later than the next one. */
  predicate Sorted(s: seq<string>)
  {
    forall i :: 0 <= i < |s| - 1 ==> CodeUnitLessEq(s[i], s[i + 1])
  }

  /** `x` placed before the first string of a sorted list it sorts no later than. */
  function InsertString(x: string, s: seq<string>): (r: seq<string>)
    requires Sorted(s)
    ensures Sorted(r) && multiset(r) == multiset(s) + multiset{x}
    ensures r[0] == x || (s != [] && r[0] == s[0])
  {
    if s == [] || CodeUnitLessEq(x, s[0]) then
      [x] + s
    else
      CodeUnitTotal(x, s[0]);
      var rest := InsertString(x, s[1..]);
      assert s == [s[0]] + s[1..];
      [s[0]] + rest
  }

  /** `Array.prototype.sort()` on strings: a sorted rearrangement of the same strings. */
  function SortStrings(s: seq<string>): (r: seq<string>)
    ensures Sorted(r) && multiset(r) == multiset(s)
  {
    if s == [] then []
    else
      assert s == [s[0]] + s[1..];
      InsertString(s[0], SortStrings(s[1..]))
  }

  /** `s.split(sep)` for a one-character separator: the pieces between the separators, in
      order, with an empty piece wherever two separators meet or one stands at either end. */
  function Split(s: string, sep: char): (parts: seq<string>)
    ensures |parts| >= 1
    decreases |s|
  {
    if s == [] then [""]
    else
      var rest := Split(s[1..], sep);
      if s[0] == sep then [""] + rest
      else [[s[0]] + rest[0]] + rest[1..]
  }

  /** `parts.join(sep)` */
  function Join(parts: seq<string>, sep: char): string
  {
    if parts == [] then ""
    else if |parts| == 1 then parts[0]
    else parts[0] + [sep] + Join(parts[1..], sep)
  }

  /** No part of a split holds the separator. */
  lemma {:induction false} SplitPartsHaveNoSep(s: string, sep: char)
    ensures forall i :: 0 <= i < |Split(s, sep)| ==> sep !in Split(s, sep)[i]
    decreases |s|
  {
    if s != [] {
      var rest := Split(s[1..], sep);
      SplitPartsHaveNoSep(s[1..], sep);
      var parts := Split(s, sep);
      forall i | 0 <= i < |parts| ensures sep !in parts[i] {
        if s[0] == sep {
          if i > 0 {
            assert parts[i] == rest[i - 1];
          }
        } else if i > 0 {
          assert parts[i] == rest[i];
        } else {
          assert parts[0] == [s[0]] + rest[0];
          assert sep !in rest[0];
        }
      }
    }
  }

  /** A prefix without the separator joins the first part of what follows it. */
  lemma {:induction false} SplitAppend(p: string, t: string, sep: char)
    requires sep !in p
    ensures Split(p + t, sep) == [p + Split(t, sep)[0]] + Split(t, sep)[1..]
    decreases |p|
  {
    var tail := Split(t, sep);
    if p == [] {
      assert p + t == t && p + tail[0] == tail[0];
      assert tail == [tail[0]] + tail[1..];
    } else {
      var s := p + t;
      assert s[0] == p[0] && s[1..] == p[1..] + t;
      SplitAppend(p[1..], t, sep);
      assert [p[0]] + (p[1..] + tail[0]) == p + tail[0];
    }
  }

  /** A string without the separator splits into itself. */
  lemma SplitNoSep(p: string, sep: char)
    requires sep !in p
    ensures Split(p, sep) == [p]
  {
    SplitAppend(p, [], sep);
    assert p + [] == p;
  }

  /** A piece without the separator, the separator and the rest split into that piece
      followed by the parts of the rest. */
  lemma SplitAtSep(p: string, rest: string, sep: char)
    requires sep !in p
    ensures Split(p + [sep] + rest, sep) == [p] + Split(rest, sep)
  {
    var t := [sep] + rest;
    assert t[1..] == rest;
    assert Split(t, sep) == [""] + Split(rest, sep);
    SplitAppend(p, t, sep);
    assert p + [sep] + rest == p + t;
    assert p + "" == p;
  }

  /** Two pieces without the separator, joined by it, split back into the two pieces. */
  lemma SplitTwo(a: string, b: string, sep: char)
    requires sep !in a && sep !in b
    ensures Split(a + [sep] + b, sep) == [a, b]
  {
    SplitAtSep(a, b, sep);
    SplitNoSep(b, sep);
  }

  lemma JoinCons(a: string, rest: seq<string>, sep: char)
    requires |rest| >= 1
    ensures Join([a] + rest, sep) == a + [sep] + Join(rest, sep)
  {
    assert ([a] + rest)[1..] == rest;
  }

  /** Putting a character in front of the first part puts it in front of the join. */
  lemma JoinHead(c: char, parts: seq<string>, sep: char)
    requires |parts| >= 1
    ensures Join([[c] + parts[0]] + parts[1..], sep) == [c] + Join(parts, sep)
  {
    if |parts| > 1 {
      JoinCons([c] + parts[0], parts[1..], sep);
      assert parts == [parts[0]] + parts[1..];
      JoinCons(parts[0], parts[1..], sep);
    }
  }

  /** Splitting and re-joining on the same separator gives back the string. */
  lemma {:induction false} JoinSplit(s: string, sep: char)
    ensures Join(Split(s, sep), sep) == s
    decreases |s|
  {
    if s != [] {
      var rest := Split(s[1..], sep);
      JoinSplit(s[1..], sep);
      if s[0] == sep {
        JoinCons("", rest, sep);
      } else {
        JoinHead(s[0], rest, sep);
      }
      assert s == [s[0]] + s[1..];
    }
  }

  /** Joining parts that contain no separator and splitting again gives back the parts. */
  lemma {:induction false} SplitJoin(parts: seq<string>, sep: char)
    requires |parts| >= 1
    requires forall i :: 0 <= i < |parts| ==> sep !in parts[i]
    ensures Split(Join(parts, sep), sep) == parts
    decreases |parts|
  {
    if |parts| > 1 {
      assert sep !in parts[0];
      SplitJoin(parts[1..], sep);
      assert parts == [parts[0]] + parts[1..];
      JoinCons(parts[0], parts[1..], sep);
      SplitAtSep(parts[0], Join(parts[1..], sep), sep);
    } else {
      SplitNoSep(parts[0], sep);
    }
  }
}

/** Generic list operations behind the application's `Array.prototype.filter` calls. */
module Seqs {

  /** A sequence is what comes before position `k`, the element there, and what follows. */
  lemma Around<T>(s: seq<T>, k: nat)
    requires k < |s|
    ensures s == s[..k] + [s[k]] + s[k + 1..]
  {
  }

  /** `s.filter(p)` */
  function Filter<T>(s: seq<T>, p: T -> bool): (r: seq<T>)
    ensures |r| <= |s|
    ensures forall i :: 0 <= i < |r| ==> p(r[i]) && r[i] in s
    decreases |s|
  {
    if s == [] then []
    else if p(s[0]) then [s[0]] + Filter(s[1..], p)
    else Filter(s[1..], p)
  }

  /** An element is kept exactly when it was present and passes the test. */
  lemma {:induction false} FilterMember<T>(s: seq<T>, p: T -> bool, x: T)
    ensures x in Filter(s, p) <==> x in s && p(x)
    decreases |s|
  {
    if s != [] {
      FilterMember(s[1..], p, x);
      assert s == [s[0]] + s[1..];
    }
  }

  /** `FilterMember` for every element at once. */
  lemma FilterMembers<T>(s: seq<T>, p: T -> bool)
    ensures forall x :: x in Filter(s, p) <==> x in s && p(x)
  {
    forall x
      ensures x in Filter(s, p) <==> x in s && p(x)
    {
      FilterMember(s, p, x);
    }
  }

  /** `r` is `s` with some elements left out, the rest in their order. */
  predicate IsSubsequence<T(==)>(r: seq<T>, s: seq<T>)
    decreases |s|
  {
    if r == [] then true
    else if s == [] then false
    else if r[0] == s[0] then IsSubsequence(r[1..], s[1..])
    else IsSubsequence(r, s[1..])
  }

  /** Filtering only leaves elements out: what it keeps is in the original order. */
  lemma {:induction false} FilterIsSubsequence<T>(s: seq<T>, p: T -> bool)
    ensures IsSubsequence(Filter(s, p), s)
    decreases |s|
  {
    if s != [] {
      FilterIsSubsequence(s[1..], p);
      var r := Filter(s, p);
      if !p(s[0]) && r != [] {
        assert r[0] != s[0];
      }
    }
  }

  /** A subsequence of passing elements has no more of them than the whole sequence. */
  lemma {:induction false} SubsequenceCount<T>(r: seq<T>, s: seq<T>, p: T -> bool)
    requires IsSubsequence(r, s)
    requires forall i :: 0 <= i < |r| ==> p(r[i])
    ensures |r| <= CountIf(s, p)
    decreases |s|
  {
    if r != [] {
      if r[0] == s[0] {
        SubsequenceCount(r[1..], s[1..], p);
      } else {
        SubsequenceCount(r, s[1..], p);
      }
    }
  }

  /** The filter is the only subsequence that keeps every passing element: one that keeps
      as many passing elements as there are is the filter itself. */
  lemma {:induction false} FilterUnique<T>(r: seq<T>, s: seq<T>, p: T -> bool)
    requires IsSubsequence(r, s)
    requires forall i :: 0 <= i < |r| ==> p(r[i])
    requires |r| == CountIf(s, p)
    ensures r == Filter(s, p)
    decreases |s|
  {
    if s == [] {
    } else if r == [] {
      FilterLength(s, p);
    } else if r[0] == s[0] {
      FilterUnique(r[1..], s[1..], p);
      assert r == [r[0]] + r[1..];
    } else if p(s[0]) {
      SubsequenceCount(r, s[1..], p);
    } else {
      FilterUnique(r, s[1..], p);
    }
  }

  /** Filtering commutes with concatenation, so the kept elements stay in their order. */
  lemma {:induction false} FilterConcat<T>(a: seq<T>, b: seq<T>, p: T -> bool)
    ensures Filter(a + b, p) == Filter(a, p) + Filter(b, p)
    decreases |a|
  {
    if a != [] {
      assert (a + b)[1..] == a[1..] + b;
      FilterConcat(a[1..], b, p);
    } else {
      assert a + b == b;
    }
  }

  /** When every element passes, filtering changes nothing. */
  lemma {:induction false} FilterAll<T>(s: seq<T>, p: T -> bool)
    requires forall i :: 0 <= i < |s| ==> p(s[i])
    ensures Filter(s, p) == s
    decreases |s|
  {
    if s != [] {
      FilterAll(s[1..], p);
      assert s == [s[0]] + s[1..];
    }
  }

  /** When no element passes, the result is empty. */
  lemma {:induction false} FilterNone<T>(s: seq<T>, p: T -> bool)
    requires forall i :: 0 <= i < |s| ==> !p(s[i])
    ensures Filter(s, p) == []
    decreases |s|
  {
    if s != [] {
      FilterNone(s[1..], p);
    }
  }

  /** The number of elements that pass a test. */
  function CountIf<T>(s: seq<T>, p: T -> bool): (n: nat)
    ensures n <= |s|
  {
    if s == [] then 0 else (if p(s[0]) then 1 else 0) + CountIf(s[1..], p)
  }

  /** The filtered list is as long as the number of elements that pass. */
  lemma {:induction false} FilterLength<T>(s: seq<T>, p: T -> bool)
    ensures |Filter(s, p)| == CountIf(s, p)
    decreases |s|
  {
    if s != [] {
      FilterLength(s[1..], p);
    }
  }

  /** Counting over a concatenation adds up the counts. */
  lemma {:induction false} CountConcat<T>(a: seq<T>, b: seq<T>, p: T -> bool)
    ensures CountIf(a + b, p) == CountIf(a, p) + CountIf(b, p)
    decreases |a|
  {
    if a != [] {
      assert (a + b)[1..] == a[1..] + b;
      CountConcat(a[1..], b, p);
    } else {
      assert a + b == b;
    }
  }
}
