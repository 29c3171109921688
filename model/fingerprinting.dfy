/**
 * Content fingerprints for duplicate detection: the text normalization the
 * fingerprint is computed over, and the comparison of two hex fingerprints
 * by a Hamming distance scaled to a similarity in [0, 1]. The hash itself
 * (MD5 or SHA-256) is not part of this model.
 */
module Fingerprinting {
  import opened Common
  import L = Lexical
  import N = IngestNormalizer

  // ---------------------------------------------------------------------
  // `normalize_text`
  // ---------------------------------------------------------------------

  /** A character normalization keeps inside a word: lowercase letter or digit. */
  predicate IsWordChar(c: char)
  {
    IsLowerChar(c) || IsDigitChar(c)
  }

  predicate IsWord(w: string)
  {
    w != [] && forall i :: 0 <= i < |w| ==> IsWordChar(w[i])
  }

  /** The shape of a normalized text: words of lowercase letters and digits, single spaces between them. */
  predicate Normal(s: string)
  {
    (forall i :: 0 <= i < |s| ==> IsWordChar(s[i]) || s[i] == ' ')
    && (s != [] ==> s[0] != ' ' && s[|s| - 1] != ' ')
    && (forall i :: 0 <= i < |s| - 1 ==> s[i] != ' ' || s[i + 1] != ' ')
  }

  /** Keep the alphanumeric and whitespace characters. */
  function KeepAlnumSpace(s: string): (r: string)
    ensures forall i :: 0 <= i < |r| ==> IsAlnumChar(r[i]) || IsSpaceChar(r[i])
    ensures forall c :: c in r ==> c in s
  {
    if s == [] then []
    else (if IsAlnumChar(s[0]) || IsSpaceChar(s[0]) then [s[0]] else []) + KeepAlnumSpace(s[1..])
  }

  /** `normalize_text`: falsy input gives "". */
  function NormalizeText(text: Option<string>): (r: string)
    ensures Normal(r)
  {
    if text.None? || text.value == [] then ""
    else
      var t := Strip(Lower(text.value));
      var k := KeepAlnumSpace(t);
      N.StripSub(Lower(text.value));
      var ws := L.Tokens(k);
      TokensFrom(k);
      assert forall j :: 0 <= j < |ws| ==> IsWord(ws[j]) by {
        forall j, i | 0 <= j < |ws| && 0 <= i < |ws[j]|
          ensures IsWordChar(ws[j][i])
        {
          assert ws[j][i] in ws[j];
        }
      }
      JoinWordsNormal(ws);
      Join(ws, " ")
  }

  /** Every character of a token comes from the text. */
  lemma {:induction false} TokensFrom(s: string)
    ensures forall j :: 0 <= j < |L.Tokens(s)| ==> forall c :: c in L.Tokens(s)[j] ==> c in s
    decreases |s|
  {
    if s != [] {
      if IsSpaceChar(s[0]) {
        TokensFrom(s[1..]);
      } else {
        var w := L.Word(s);
        TokensFrom(s[|w|..]);
        assert L.Tokens(s) == [w] + L.Tokens(s[|w|..]);
      }
    }
  }

  /** Words joined with single spaces have the normalized shape. */
  lemma {:induction false} JoinWordsNormal(ws: seq<string>)
    requires forall j :: 0 <= j < |ws| ==> IsWord(ws[j])
    ensures Normal(Join(ws, " "))
    ensures ws != [] ==> Join(ws, " ") != []
  {
    if |ws| == 1 {
      assert Join(ws, " ") == ws[0];
    } else if |ws| > 1 {
      JoinWordsNormal(ws[1..]);
      NormalCons(ws[0], Join(ws[1..], " "));
    }
  }

  /** A word, a space and a non-empty normalized text make a normalized text. */
  lemma NormalCons(w: string, j: string)
    requires IsWord(w) && Normal(j) && j != []
    ensures Normal(w + " " + j)
  {
    var s := w + " " + j;
    assert forall i :: 0 <= i < |w| ==> s[i] == w[i];
    assert s[|w|] == ' ';
    assert forall i :: |w| < i < |s| ==> s[i] == j[i - |w| - 1];
  }

  /** Normalizing a normalized text leaves it unchanged. */
  lemma NormalFixed(s: string)
    requires Normal(s)
    ensures NormalizeText(Some(s)) == s
  {
    if s != [] {
      assert Lower(s) == s;
      StripTrimmed(s);
      KeepAllAlnumSpace(s);
      NormalTokensJoin(s);
    }
  }

  lemma {:induction false} KeepAllAlnumSpace(s: string)
    requires forall i :: 0 <= i < |s| ==> IsAlnumChar(s[i]) || IsSpaceChar(s[i])
    ensures KeepAlnumSpace(s) == s
  {
    if s != [] {
      KeepAllAlnumSpace(s[1..]);
      assert [s[0]] + s[1..] == s;
    }
  }

  /** The words of a non-empty normalized text, joined again with spaces, give it back. */
  lemma {:induction false} NormalTokensJoin(s: string)
    requires Normal(s) && s != []
    ensures L.Tokens(s) != []
    ensures Join(L.Tokens(s), " ") == s
    decreases |s|
  {
    var w := L.Word(s);
    assert s[0] != ' ';
    if |w| == |s| {
      assert L.Tokens(s[|w|..]) == [];
    } else {
      var rest := s[|w| + 1..];
      assert s[|w| + 1] != ' ';
      NormalSuffix(s, |w| + 1);
      NormalTokensJoin(rest);
      TokensAfterWord(s, w);
      JoinCons(w, L.Tokens(rest));
      WordSpaceRest(s, |w|);
    }
  }

  /** After its first word and a space, a text's tokens are those of the rest. */
  lemma TokensAfterWord(s: string, w: string)
    requires s != [] && !IsSpaceChar(s[0]) && w == L.Word(s) && |w| < |s|
    ensures L.Tokens(s) == [w] + L.Tokens(s[|w| + 1..])
  {
    assert s[|w|..][1..] == s[|w| + 1..];
  }

  lemma JoinCons(w: string, ts: seq<string>)
    requires ts != []
    ensures Join([w] + ts, " ") == w + " " + Join(ts, " ")
  {
    assert ([w] + ts)[1..] == ts;
  }

  lemma WordSpaceRest(s: string, k: nat)
    requires k < |s| && s[k] == ' '
    ensures s == s[..k] + " " + s[k + 1..]
  {
  }

  /** A normalized text from just after one of its spaces on is normalized. */
  lemma NormalSuffix(s: string, k: nat)
    requires Normal(s) && 0 < k < |s| && s[k - 1] == ' '
    ensures Normal(s[k..])
  {
    var t := s[k..];
    assert forall i :: 0 <= i < |t| ==> t[i] == s[k + i];
  }

  /** `normalize_text` is idempotent. */
  lemma NormalizeIdempotent(text: Option<string>)
    ensures NormalizeText(Some(NormalizeText(text))) == NormalizeText(text)
  {
    NormalFixed(NormalizeText(text));
  }

  // ---------------------------------------------------------------------
  // `hamming_distance`
  // ---------------------------------------------------------------------

  /** The number of positions where two equally long strings differ. */
  function Mismatches(a: string, b: string): (n: nat)
    requires |a| == |b|
    ensures n <= |a|
  {
    if a == [] then 0
    else Mismatches(a[..|a| - 1], b[..|b| - 1]) + (if a[|a| - 1] != b[|b| - 1] then 1 else 0)
  }

  /** What `hamming_distance` returns. */
  function Hamming(a: string, b: string): (d: nat)
    ensures d <= Max(|a|, |b|)
  {
    if |a| != |b| then Max(|a|, |b|) else Mismatches(a, b)
  }

  /** `hamming_distance` */
  method HammingDistance(fp1: string, fp2: string) returns (distance: nat)
    ensures distance == Hamming(fp1, fp2)
  {
    if |fp1| != |fp2| {
      return Max(|fp1|, |fp2|);
    }
    distance := 0;
    var i := 0;
    while i < |fp1|
      invariant 0 <= i <= |fp1|
      invariant distance == Mismatches(fp1[..i], fp2[..i])
    {
      if fp1[i] != fp2[i] {
        distance := distance + 1;
      }
      assert fp1[..i + 1][..i] == fp1[..i] && fp2[..i + 1][..i] == fp2[..i];
      i := i + 1;
    }
    assert fp1[..i] == fp1 && fp2[..i] == fp2;
  }

  lemma {:induction false} MismatchesSymmetric(a: string, b: string)
    requires |a| == |b|
    ensures Mismatches(a, b) == Mismatches(b, a)
  {
    if a != [] {
      MismatchesSymmetric(a[..|a| - 1], b[..|b| - 1]);
    }
  }

  lemma {:induction false} MismatchesZero(a: string, b: string)
    requires |a| == |b|
    ensures Mismatches(a, b) == 0 <==> a == b
  {
    if a != [] {
      MismatchesZero(a[..|a| - 1], b[..|b| - 1]);
      if a[..|a| - 1] == b[..|b| - 1] && a[|a| - 1] == b[|b| - 1] {
        assert a == a[..|a| - 1] + [a[|a| - 1]];
        assert b == b[..|b| - 1] + [b[|b| - 1]];
      }
    }
  }

  /** The distance is symmetric, and for equal lengths it is 0 exactly for equal strings. */
  lemma HammingSpec(a: string, b: string)
    ensures Hamming(a, b) == Hamming(b, a)
    ensures |a| == |b| ==> (Hamming(a, b) == 0 <==> a == b)
    ensures |a| != |b| ==> Hamming(a, b) == Max(|a|, |b|)
  {
    if |a| == |b| {
      MismatchesSymmetric(a, b);
      MismatchesZero(a, b);
    }
  }

  // ---------------------------------------------------------------------
  // `fingerprint_similarity` and `fingerprints_match`
  // ---------------------------------------------------------------------

  /** `fingerprint_similarity` */
  function Similarity(fp1: string, fp2: string): (s: real)
    ensures 0.0 <= s <= 1.0
    ensures fp1 == [] || fp2 == [] ==> s == 0.0
  {
    if fp1 == [] || fp2 == [] then 0.0
    else
      var maxLen := Max(|fp1|, |fp2|);
      if maxLen == 0 then 1.0
      else
        var similarity := 1.0 - (Hamming(fp1, fp2) as real) / ((maxLen * 4) as real);
        MaxReal(0.0, MinReal(1.0, similarity))
  }

  /**
   * Identical non-empty fingerprints have similarity 1 and no others do;
   * since the distance counts characters but is scaled as if it counted
   * bits (four per hex digit), any two non-empty fingerprints have
   * similarity at least 0.75, exactly 0.75 when their lengths differ.
   */
  lemma SimilaritySpec(fp1: string, fp2: string)
    requires fp1 != [] && fp2 != []
    ensures Similarity(fp1, fp2) == Similarity(fp2, fp1)
    ensures Similarity(fp1, fp2) == 1.0 <==> fp1 == fp2
    ensures Similarity(fp1, fp2) >= 0.75
    ensures |fp1| != |fp2| ==> Similarity(fp1, fp2) == 0.75
  {
    HammingSpec(fp1, fp2);
    Ratio(Hamming(fp1, fp2), Max(|fp1|, |fp2|));
  }

  /** A distance of at most `m` scaled by `4 m` is at most a quarter. */
  lemma Ratio(d: nat, m: nat)
    requires 0 < m && d <= m
    ensures 0.0 <= (d as real) / ((m * 4) as real) <= 0.25
    ensures d == m ==> (d as real) / ((m * 4) as real) == 0.25
    ensures d > 0 ==> (d as real) / ((m * 4) as real) > 0.0
  {
    var x := (m * 4) as real;
    var q := (d as real) / x;
    assert q * x == d as real;
    assert 0.25 * x == m as real;
  }

  /** `fingerprints_match`: the similarity reaches the configured threshold. */
  predicate FingerprintsMatch(fp1: string, fp2: string, threshold: real)
  {
    Similarity(fp1, fp2) >= threshold
  }

  /**
   * An empty fingerprint matches nothing under a positive threshold; equal
   * non-empty fingerprints match under any threshold up to 1; with a
   * threshold of at most 0.75 any two non-empty fingerprints match.
   */
  lemma MatchSpec(fp1: string, fp2: string, threshold: real)
    ensures (fp1 == [] || fp2 == []) && threshold > 0.0 ==> !FingerprintsMatch(fp1, fp2, threshold)
    ensures fp1 != [] && fp1 == fp2 && threshold <= 1.0 ==> FingerprintsMatch(fp1, fp2, threshold)
    ensures fp1 != [] && fp2 != [] && threshold <= 0.75 ==> FingerprintsMatch(fp1, fp2, threshold)
  {
    if fp1 != [] && fp2 != [] {
      SimilaritySpec(fp1, fp2);
    }
  }
}
