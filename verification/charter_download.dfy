// Download file names for the membership charter and the electronic member
// card (src/lib/charter-download.ts). The name is sanitised in three chained
// steps: every character other than an ASCII letter, an ASCII digit or
// whitespace is removed, every run of whitespace becomes one underscore, and
// the result is cut to its first 50 characters. The image rendering and the
// download itself are not part of this model.

module CharterDownload {
  import Js
  import Seqs

  const MaxNameLength: nat := 50

  /** Kept by the first replacement, `/[^a-zA-Z0-9\s]/g`. */
  predicate Kept(c: char)
  {
    Js.IsAsciiLetter(c) || Js.IsDigit(c) || Js.IsWhitespace(c)
  }

  /** A character of a sanitised name. */
  predicate Safe(c: char)
  {
    Js.IsAsciiLetter(c) || Js.IsDigit(c) || c == '_'
  }

  /** `.replace(/\s+/g, "_")`: each maximal run of whitespace becomes one underscore. */
  function CollapseWhitespace(s: string): (r: string)
    ensures |r| <= |s|
    decreases |s|
  {
    if s == [] then []
    else if Js.IsWhitespace(s[0]) then "_" + CollapseWhitespace(Js.TrimStart(s[1..]))
    else [s[0]] + CollapseWhitespace(s[1..])
  }

  predicate AllKept(s: string)
  {
    forall i :: 0 <= i < |s| ==> Kept(s[i])
  }

  /** Collapsing the whitespace of kept characters leaves only safe ones. */
  lemma {:induction false} CollapseSafe(s: string)
    requires AllKept(s)
    ensures AllSafe(CollapseWhitespace(s))
    decreases |s|
  {
    if s != [] {
      if Js.IsWhitespace(s[0]) {
        var t := Js.TrimStart(s[1..]);
        KeptSuffix(s, t);
        CollapseSafe(t);
        CollapseSafeRun(s);
      } else {
        assert Kept(s[0]);
        KeptSuffix(s, s[1..]);
        CollapseSafe(s[1..]);
        CollapseSafeChar(s);
      }
    }
  }

  /** The step of `CollapseSafe` for a string that starts with whitespace. */
  lemma CollapseSafeRun(s: string)
    requires s != [] && Js.IsWhitespace(s[0])
    requires AllSafe(CollapseWhitespace(Js.TrimStart(s[1..])))
    ensures AllSafe(CollapseWhitespace(s))
  {
    CollapseStep(s);
    assert AllSafe("_") by { assert "_"[0] == '_'; }
    AllSafeConcat("_", CollapseWhitespace(Js.TrimStart(s[1..])));
  }

  /** The step of `CollapseSafe` for a string that starts with a kept character other than
      whitespace. */
  lemma CollapseSafeChar(s: string)
    requires s != [] && Kept(s[0]) && !Js.IsWhitespace(s[0])
    requires AllSafe(CollapseWhitespace(s[1..]))
    ensures AllSafe(CollapseWhitespace(s))
  {
    CollapseStep(s);
    assert AllSafe([s[0]]) by { assert [s[0]][0] == s[0]; }
    AllSafeConcat([s[0]], CollapseWhitespace(s[1..]));
  }

  /** A proper suffix of a string of kept characters holds only kept characters. */
  lemma KeptSuffix(s: string, t: string)
    requires |t| < |s| && t == s[|s| - |t|..]
    requires AllKept(s)
    ensures AllKept(t)
  {
    forall i | 0 <= i < |t| ensures t[i] == s[|s| - |t| + i] {}
  }

  /** One step of `CollapseWhitespace`, for a string that is not empty. */
  lemma CollapseStep(s: string)
    requires s != []
    ensures CollapseWhitespace(s) ==
              if Js.IsWhitespace(s[0]) then "_" + CollapseWhitespace(Js.TrimStart(s[1..]))
              else [s[0]] + CollapseWhitespace(s[1..])
  {
  }

  /** The sanitised form of a name, as both generators compute it. */
  function Sanitize(name: string): (r: string)
    ensures |r| <= MaxNameLength
    ensures AllSafe(r)
  {
    var kept := Seqs.Filter(name, Kept);
    CollapseSafe(kept);
    var r := Js.SliceFirst(CollapseWhitespace(kept), MaxNameLength);
    assert AllSafe(r) by {
      forall i | 0 <= i < |r| ensures Safe(r[i]) {
        assert r[i] == CollapseWhitespace(kept)[i];
      }
    }
    r
  }

  predicate NoDoubleUnderscore(s: string)
  {
    forall i :: 0 <= i < |s| - 1 ==> !(s[i] == '_' && s[i + 1] == '_')
  }

  /** Collapsing whitespace in a string without underscores never puts two underscores
      side by side, and does not start with one unless the input starts with whitespace. */
  lemma {:induction false} CollapseSeparates(s: string)
    requires '_' !in s
    ensures NoDoubleUnderscore(CollapseWhitespace(s))
    ensures CollapseWhitespace(s) != [] && CollapseWhitespace(s)[0] == '_' ==> Js.IsWhitespace(s[0])
    decreases |s|
  {
    if s == [] {
    } else if Js.IsWhitespace(s[0]) {
      var t := Js.TrimStart(s[1..]);
      assert '_' !in t by {
        forall c | c in t ensures c != '_' {
          assert c in s[1..];
        }
      }
      CollapseSeparates(t);
      Js.TrimStartTrims(s[1..]);
      var rest := CollapseWhitespace(t);
      assert rest != [] ==> rest[0] != '_';
      assert CollapseWhitespace(s) == "_" + rest;
    } else {
      CollapseSeparates(s[1..]);
      var rest := CollapseWhitespace(s[1..]);
      assert CollapseWhitespace(s) == [s[0]] + rest;
    }
  }

  /** A sanitised name holds only ASCII letters, digits and underscores, never two
      underscores in a row: underscores of the original are removed before the
      whitespace runs are turned into underscores. */
  lemma SanitizedShape(name: string)
    ensures NoDoubleUnderscore(Sanitize(name))
  {
    var kept := Seqs.Filter(name, Kept);
    assert '_' !in kept by {
      forall i | 0 <= i < |kept| ensures kept[i] != '_' {
        assert Kept(kept[i]);
      }
    }
    CollapseSeparates(kept);
  }

  /** A name that is already letters and digits only, at most 50 long, is kept as it is. */
  lemma {:induction false} PlainNameUnchanged(name: string)
    requires |name| <= MaxNameLength
    requires forall i :: 0 <= i < |name| ==> Js.IsAsciiLetter(name[i]) || Js.IsDigit(name[i])
    ensures Sanitize(name) == name
  {
    Seqs.FilterAll(name, Kept);
    NoWhitespaceUnchanged(name);
  }

  lemma {:induction false} NoWhitespaceUnchanged(s: string)
    requires forall i :: 0 <= i < |s| ==> !Js.IsWhitespace(s[i])
    ensures CollapseWhitespace(s) == s
    decreases |s|
  {
    if s != [] {
      NoWhitespaceUnchanged(s[1..]);
    }
  }

  /** A run of whitespace between two words, however long and of whatever whitespace
      characters, becomes exactly one underscore. */
  lemma {:induction false} CollapseRun(a: string, run: string, b: string)
    requires forall i :: 0 <= i < |a| ==> !Js.IsWhitespace(a[i])
    requires run != [] && Js.AllWhitespace(run)
    requires b == [] || !Js.IsWhitespace(b[0])
    ensures CollapseWhitespace(a + run + b) == a + "_" + CollapseWhitespace(b)
    decreases |a|
  {
    var c := CollapseWhitespace(b);
    CollapseLeadingRun(run, b);
    CollapseKeepsWord(a, run + b);
    Assoc(a, run, b);
    Assoc(a, "_", c);
  }

  lemma Assoc(x: string, y: string, z: string)
    ensures x + (y + z) == x + y + z
  {
  }

  /** Characters that are not whitespace are kept as they are in front of whatever follows. */
  lemma {:induction false} CollapseKeepsWord(a: string, t: string)
    requires forall i :: 0 <= i < |a| ==> !Js.IsWhitespace(a[i])
    ensures CollapseWhitespace(a + t) == a + CollapseWhitespace(t)
    decreases |a|
  {
    if a == [] {
      assert a + t == t;
    } else {
      FirstKept(a, t);
      CollapseKeepsWord(a[1..], t);
      assert [a[0]] + (a[1..] + CollapseWhitespace(t)) == a + CollapseWhitespace(t);
    }
  }

  /** A leading run of whitespace becomes one underscore. */
  lemma CollapseLeadingRun(run: string, b: string)
    requires run != [] && Js.AllWhitespace(run)
    requires b == [] || !Js.IsWhitespace(b[0])
    ensures CollapseWhitespace(run + b) == "_" + CollapseWhitespace(b)
  {
    var s := run + b;
    assert s[0] == run[0] && s[1..] == run[1..] + b;
    TrimStartRun(run[1..], b);
    CollapseStep(s);
  }

  /** A leading character that is not whitespace is kept as it is. */
  lemma FirstKept(a: string, rest: string)
    requires a != [] && !Js.IsWhitespace(a[0])
    ensures CollapseWhitespace(a + rest) == [a[0]] + CollapseWhitespace(a[1..] + rest)
  {
    var s := a + rest;
    assert s[0] == a[0] && s[1..] == a[1..] + rest;
    CollapseStep(s);
  }

  lemma {:induction false} TrimStartRun(run: string, b: string)
    requires Js.AllWhitespace(run)
    requires b == [] || !Js.IsWhitespace(b[0])
    ensures Js.TrimStart(run + b) == b
    decreases |run|
  {
    if run != [] {
      assert (run + b)[1..] == run[1..] + b;
      TrimStartRun(run[1..], b);
    } else {
      assert run + b == b;
    }
  }

  predicate AllSafe(s: string)
  {
    forall i :: 0 <= i < |s| ==> Safe(s[i])
  }

  lemma AllSafeConcat(a: string, b: string)
    requires AllSafe(a) && AllSafe(b)
    ensures AllSafe(a + b)
  {
    forall i | 0 <= i < |a + b| ensures Safe((a + b)[i]) {
      if i >= |a| { assert (a + b)[i] == b[i - |a|]; }
    }
  }

  /** The three parts of a concatenation can be read back from it by position. */
  lemma Parts(p: string, m: string, q: string)
    ensures (p + m + q)[..|p|] == p && (p + m + q)[|p|..|p| + |m|] == m
    ensures (p + m + q)[|p| + |m|..] == q && (p + m + q)[..|p| + |m|] == p + m
  {
  }

  /** `generatePiagamFilename(pesantrenName)` */
  function PiagamFilename(pesantrenName: string): (f: string)
    ensures |f| == |Sanitize(pesantrenName)| + 15
    ensures f[..11] == "Piagam_MPJ_" && f[11..|f| - 4] == Sanitize(pesantrenName) && f[|f| - 4..] == ".jpg"
  {
    Parts("Piagam_MPJ_", Sanitize(pesantrenName), ".jpg");
    "Piagam_MPJ_" + Sanitize(pesantrenName) + ".jpg"
  }

  datatype CardType = Virtual | Physical

  /** The card-type word of a member card file name. */
  function CardWord(cardType: CardType): (w: string)
    ensures AllSafe(w) && |w| == (if cardType == Virtual then 7 else 5)
  {
    var w := if cardType == Virtual then "Virtual" else "Fisik";
    assert AllSafe(w) by {
      forall i | 0 <= i < |w| ensures Safe(w[i]) {}
    }
    w
  }

  /** `generateEIDFilename(name, type)` */
  function EidFilename(name: string, cardType: CardType): (f: string)
    ensures |f| == |Sanitize(name)| + (if cardType == Virtual then 20 else 18)
    ensures f[..8] == "EID_MPJ_" && f[8..8 + |Sanitize(name)|] == Sanitize(name)
    ensures f[8 + |Sanitize(name)|] == '_' && f[9 + |Sanitize(name)|..|f| - 4] == CardWord(cardType)
    ensures f[|f| - 4..] == ".jpg"
  {
    var stem := "EID_MPJ_" + Sanitize(name) + "_" + CardWord(cardType);
    Parts("EID_MPJ_", Sanitize(name), "_");
    Parts("EID_MPJ_" + Sanitize(name), "_", CardWord(cardType));
    Parts("EID_MPJ_" + Sanitize(name) + "_", CardWord(cardType), ".jpg");
    stem + ".jpg"
  }

  /** Whatever the name, a charter file name has no directory separator and exactly one
      dot, the one that starts its ".jpg" extension, and is at most 65 characters long. */
  lemma PiagamFilenameIsFlat(pesantrenName: string)
    ensures var f := PiagamFilename(pesantrenName);
            |f| <= 65 && '/' !in f[..|f| - 4] && '\\' !in f[..|f| - 4] && '.' !in f[..|f| - 4]
  {
    var prefix := "Piagam_MPJ_";
    assert AllSafe(prefix) by {
      forall i | 0 <= i < |prefix| ensures Safe(prefix[i]) {}
    }
    AllSafeConcat(prefix, Sanitize(pesantrenName));
    Parts(prefix, Sanitize(pesantrenName), ".jpg");
  }

  /** No character of a safe string separates directories or starts an extension. */
  lemma SafeIsFlat(s: string)
    requires AllSafe(s)
    ensures '/' !in s && '\\' !in s && '.' !in s
  {
  }

  /** The same for a member card file name, at most 70 characters with its suffix. */
  lemma EidFilenameIsFlat(name: string, cardType: CardType)
    ensures var f := EidFilename(name, cardType);
            |f| <= 70 && '/' !in f[..|f| - 4] && '\\' !in f[..|f| - 4] && '.' !in f[..|f| - 4]
  {
    var prefix := "EID_MPJ_";
    assert AllSafe(prefix) by {
      forall i | 0 <= i < |prefix| ensures Safe(prefix[i]) {}
    }
    assert AllSafe("_") by {
      assert "_"[0] == '_';
    }
    var stem := prefix + Sanitize(name) + "_" + CardWord(cardType);
    AllSafeConcat(prefix, Sanitize(name));
    AllSafeConcat(prefix + Sanitize(name), "_");
    AllSafeConcat(prefix + Sanitize(name) + "_", CardWord(cardType));
    SafeIsFlat(stem);
    assert EidFilename(name, cardType) == stem + ".jpg";
    assert (stem + ".jpg")[..|stem|] == stem;
  }
}
