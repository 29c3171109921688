/**
 * Triple normalization for evidence grouping: each component is lowercased,
 * stripped, its whitespace runs collapsed to one space, and one trailing run
 * of `.,;:` removed before a final strip. `\s` is ASCII whitespace.
 */
module TripleNormalizer {
  import opened Common

  /** The punctuation `[.,;:]` removed from the end. */
  predicate IsTrailPunct(c: char) { c == '.' || c == ',' || c == ';' || c == ':' }

  /** Whitespace only as single spaces. */
  predicate SingleSpaced(s: string)
  {
    && (forall i :: 0 <= i < |s| && IsSpaceChar(s[i]) ==> s[i] == ' ')
    && (forall i :: 0 <= i < |s| - 1 ==> !(s[i] == ' ' && s[i + 1] == ' '))
  }

  /** The shape of every normalized component. */
  predicate Normalized(s: string)
  {
    && IsLowerString(s)
    && SingleSpaced(s)
    && (s != [] ==> !IsSpaceChar(s[0]) && !IsSpaceChar(s[|s| - 1]))
  }

  /** `re.sub(r'\s+', ' ', s)`: each maximal whitespace run becomes one space. */
  function Collapse(s: string): (r: string)
    ensures |r| <= |s|
    decreases |s|
  {
    if s == [] then []
    else if IsSpaceChar(s[0]) then [' '] + Collapse(StripLeft(s[1..]))
    else [s[0]] + Collapse(s[1..])
  }

  /** A collapsed text starts with a space iff the input does, and ends with one iff the input does. */
  lemma {:induction false} CollapseEnds(s: string)
    ensures var r := Collapse(s);
      s != [] ==>
        r != [] && r[0] == (if IsSpaceChar(s[0]) then ' ' else s[0])
        && (r[|r| - 1] == ' ' <==> IsSpaceChar(s[|s| - 1]))
    decreases |s|
  {
    if s != [] {
      if IsSpaceChar(s[0]) {
        var t := StripLeft(s[1..]);
        if t == [] {
          assert IsSpaceChar(s[|s| - 1]) by {
            if |s| > 1 { assert s[|s| - 1] == s[1..][|s| - 2]; }
          }
        } else {
          CollapseEnds(t);
          assert s[|s| - 1] == t[|t| - 1];
        }
      } else if |s| > 1 {
        CollapseEnds(s[1..]);
      }
    }
  }

  lemma SingleSpacedCons(ch: char, c: string)
    requires SingleSpaced(c) && (IsSpaceChar(ch) ==> ch == ' ')
    requires ch == ' ' && c != [] ==> c[0] != ' '
    ensures SingleSpaced([ch] + c)
  {
    var r := [ch] + c;
    assert forall i :: 1 <= i < |r| ==> r[i] == c[i - 1];
  }

  /** A collapsed text holds whitespace only as single spaces. */
  lemma {:induction false} CollapseSingle(s: string)
    ensures SingleSpaced(Collapse(s))
    decreases |s|
  {
    if s != [] {
      if IsSpaceChar(s[0]) {
        var t := StripLeft(s[1..]);
        CollapseSingle(t);
        CollapseEnds(t);
        SingleSpacedCons(' ', Collapse(t));
      } else {
        CollapseSingle(s[1..]);
        SingleSpacedCons(s[0], Collapse(s[1..]));
      }
    }
  }

  /** Collapsing keeps a text lower-case. */
  lemma {:induction false} CollapseLower(s: string)
    requires IsLowerString(s)
    ensures IsLowerString(Collapse(s))
    decreases |s|
  {
    if s != [] {
      if IsSpaceChar(s[0]) {
        var t := StripLeft(s[1..]);
        LowerSuffix(s[1..], |s| - 1 - |t|);
        CollapseLower(t);
        LowerCons(' ', Collapse(t));
      } else {
        LowerSuffix(s, 1);
        CollapseLower(s[1..]);
        LowerCons(s[0], Collapse(s[1..]));
      }
    }
  }

  lemma LowerSuffix(s: string, k: nat)
    requires IsLowerString(s) && k <= |s|
    ensures IsLowerString(s[k..])
  {
    assert forall i :: 0 <= i < |s| - k ==> s[k..][i] == s[k + i];
  }

  lemma LowerCons(ch: char, c: string)
    requires IsLowerString(c) && !IsUpperChar(ch)
    ensures IsLowerString([ch] + c)
  {
    var r := [ch] + c;
    assert forall i :: 1 <= i < |r| ==> r[i] == c[i - 1];
  }

  /** Collapsing only changes whitespace. */
  lemma {:induction false} CollapseNonSpace(s: string)
    ensures NonSpace(Collapse(s)) == NonSpace(s)
    decreases |s|
  {
    if s != [] {
      if IsSpaceChar(s[0]) {
        var t := StripLeft(s[1..]);
        CollapseNonSpace(t);
        NonSpaceStripLeft(s[1..]);
        assert ([' '] + Collapse(t))[1..] == Collapse(t);
      } else {
        CollapseNonSpace(s[1..]);
        assert ([s[0]] + Collapse(s[1..]))[1..] == Collapse(s[1..]);
      }
    }
  }

  /** `re.sub(r'[.,;:]+$', '', s)`: the maximal trailing run of punctuation removed. */
  function TrimPunct(s: string): (r: string)
    ensures |r| <= |s| && r == s[..|r|]
    ensures r != [] ==> !IsTrailPunct(r[|r| - 1])
    ensures forall i :: |r| <= i < |s| ==> IsTrailPunct(s[i])
  {
    if s != [] && IsTrailPunct(s[|s| - 1]) then TrimPunct(s[..|s| - 1]) else s
  }

  /** `normalize_triple_component`; `None` stands for a non-string argument. */
  function NormalizeComponent(s: Option<string>): string
  {
    match s
    case None => ""
    case Some(x) => Strip(TrimPunct(Collapse(Strip(Lower(x)))))
  }

  /** `normalize_triple`. */
  function NormalizeTriple(s: Option<string>, p: Option<string>, o: Option<string>): (string, string, string)
  {
    (NormalizeComponent(s), NormalizeComponent(p), NormalizeComponent(o))
  }

  // ---------------------------------------------------------------------
  // Properties
  // ---------------------------------------------------------------------

  /** A contiguous piece of a lower-case, single-spaced text is lower-case and single-spaced. */
  lemma SliceShape(s: string, a: nat, b: nat)
    requires a <= b <= |s| && IsLowerString(s) && SingleSpaced(s)
    ensures IsLowerString(s[a..b]) && SingleSpaced(s[a..b])
  {
    var t := s[a..b];
    assert forall i :: 0 <= i < |t| ==> t[i] == s[a + i];
  }

  /** The collapsed, lowercased, stripped input that the punctuation trim works on. */
  function Collapsed(x: string): string
  {
    Collapse(Strip(Lower(x)))
  }

  lemma SliceLower(s: string, a: nat, b: nat)
    requires a <= b <= |s| && IsLowerString(s)
    ensures IsLowerString(s[a..b])
  {
    var t := s[a..b];
    assert forall i :: 0 <= i < |t| ==> t[i] == s[a + i];
  }

  lemma StripKeepsLower(l: string)
    requires IsLowerString(l)
    ensures IsLowerString(Strip(l))
  {
    var u := StripLeft(l);
    SliceLower(l, |l| - |u|, |l|);
    SliceLower(u, 0, |StripRight(u)|);
  }

  lemma CollapsedShape(x: string)
    ensures var c := Collapsed(x);
      IsLowerString(c) && SingleSpaced(c) && (c != [] ==> !IsSpaceChar(c[0]))
  {
    var l := Lower(x);
    assert IsLowerString(l);
    StripKeepsLower(l);
    var t := Strip(l);
    CollapseLower(t);
    CollapseSingle(t);
    CollapseEnds(t);
  }

  /**
   * A non-string is "", and every normalized component is lower-case, has
   * no surrounding whitespace, and holds whitespace only as single spaces.
   */
  lemma NormalizedShape(s: Option<string>)
    ensures s.None? ==> NormalizeComponent(s) == ""
    ensures Normalized(NormalizeComponent(s))
  {
    if s.Some? {
      var c := Collapsed(s.value);
      CollapsedShape(s.value);
      var p := TrimPunct(c);
      SliceShape(c, 0, |p|);
      var l := StripLeft(p);
      assert l == p[|p| - |l|..];
      SliceShape(p, |p| - |l|, |p|);
      var r := StripRight(l);
      SliceShape(l, 0, |r|);
    }
  }

  /** Stripping a text that starts with a non-space only removes trailing whitespace. */
  lemma StripOfUnindented(p: string)
    requires p != [] ==> !IsSpaceChar(p[0])
    ensures Strip(p) == StripRight(p)
  {
  }

  /** Trimming the punctuation and stripping keeps a prefix whose tail is spaces and punctuation. */
  lemma TrimmedPrefix(c: string)
    requires SingleSpaced(c) && (c != [] ==> !IsSpaceChar(c[0]))
    ensures var r := Strip(TrimPunct(c));
      && r <= c
      && (forall i :: |r| <= i < |c| ==> c[i] == ' ' || IsTrailPunct(c[i]))
  {
    var p := TrimPunct(c);
    assert p != [] ==> p[0] == c[0];
    StripOfUnindented(p);
    var r := StripRight(p);
    assert forall i :: |r| <= i < |p| ==> c[i] == p[i] && IsSpaceChar(c[i]);
  }

  /**
   * The component is a prefix of the collapsed, lowercased, stripped input,
   * and the rest of that text is only spaces and punctuation: normalization
   * drops nothing but whitespace and trailing punctuation.
   */
  lemma NormalizedPrefix(x: string)
    ensures var c := Collapsed(x);
      var r := NormalizeComponent(Some(x));
      && r <= c
      && (forall i :: |r| <= i < |c| ==> c[i] == ' ' || IsTrailPunct(c[i]))
  {
    CollapsedShape(x);
    TrimmedPrefix(Collapsed(x));
  }

  /** Every component of a normalized triple has the normalized shape; a non-string component is "". */
  lemma NormalizeTripleShape(s: Option<string>, p: Option<string>, o: Option<string>)
    ensures var t := NormalizeTriple(s, p, o);
      && Normalized(t.0) && Normalized(t.1) && Normalized(t.2)
      && (s.None? ==> t.0 == "") && (p.None? ==> t.1 == "") && (o.None? ==> t.2 == "")
  {
    NormalizedShape(s);
    NormalizedShape(p);
    NormalizedShape(o);
  }
}
