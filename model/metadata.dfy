/**
 * Metadata extraction for demoted metadata nodes: the extractors are tried
 * in list order and the first whose (case-insensitive) pattern matches and
 * whose value extraction does not raise names the attribute and its value.
 *
 * Patterns are characterized directly on the string; `\d` and `\s` are the
 * ASCII digits and ASCII whitespace.
 */
module Metadata {
  import opened Common

  datatype Attr = Year | Doi | Issn | ArxivId | Pmid | Url

  /** The attribute name each extractor assigns. */
  function AttrName(a: Attr): string
  {
    match a
    case Year => "year"
    case Doi => "doi"
    case Issn => "issn"
    case ArxivId => "arxiv_id"
    case Pmid => "pmid"
    case Url => "url"
  }

  /** `METADATA_EXTRACTORS`, in order. */
  const Extractors: seq<Attr> := [Year, Doi, Issn, ArxivId, Pmid, Url]

  /** `METADATA_EDGE_TYPE`. */
  const EdgeTypes: map<string, string> := map[
    "year" := "has_year", "doi" := "has_doi", "issn" := "has_issn",
    "arxiv_id" := "has_arxiv", "pmid" := "has_pmid", "url" := "has_url"]

  datatype AttrValue = IntValue(i: int) | TextValue(t: string)

  /** One extractor applied to a node: no match, a match whose extractor raised, or a value. */
  datatype Extraction = NoMatch | Raised | Extracted(v: AttrValue)

  // ---------------------------------------------------------------------
  // Pattern pieces
  // ---------------------------------------------------------------------

  /** Every character is an ASCII digit (possibly none). */
  predicate AllDigits(s: string)
  {
    forall i :: 0 <= i < |s| ==> IsDigitChar(s[i])
  }

  /** The end of the run of digits starting at `i`. */
  function DigitRunEnd(s: string, i: nat): (j: nat)
    requires i <= |s|
    ensures i <= j <= |s|
    ensures AllDigits(s[i..j])
    ensures j < |s| ==> !IsDigitChar(s[j])
    decreases |s| - i
  {
    if i < |s| && IsDigitChar(s[i]) then DigitRunEnd(s, i + 1) else i
  }

  /** `s` starts with `p` ignoring ASCII case (`p` is lower case). */
  predicate StartsWithNoCase(s: string, p: string)
  {
    |p| <= |s| && forall i :: 0 <= i < |p| ==> ToLowerChar(s[i]) == p[i]
  }

  /** `s` equals `p` ignoring ASCII case (`p` is lower case). */
  predicate EqualsNoCase(s: string, p: string)
  {
    |s| == |p| && StartsWithNoCase(s, p)
  }

  predicate NoNewline(s: string)
  {
    forall i :: 0 <= i < |s| ==> s[i] != '\n'
  }

  /** The digit run from `i` ends at `j` exactly when `s[i..j]` is digits and `s[j]` is not one. */
  lemma {:induction false} DigitRunEndAt(s: string, i: nat, j: nat)
    requires i <= j <= |s| && AllDigits(s[i..j])
    requires j < |s| ==> !IsDigitChar(s[j])
    ensures DigitRunEnd(s, i) == j
    decreases j - i
  {
    if i < j {
      assert IsDigitChar(s[i..j][0]);
      assert s[i + 1..j] == s[i..j][1..];
      DigitRunEndAt(s, i + 1, j);
    }
  }

  /** `\d+\.\d+` matches the whole of `s`. */
  predicate Decimal(s: string)
  {
    var j := DigitRunEnd(s, 0);
    0 < j < |s| && s[j] == '.' && IsDigits(s[j + 1..])
  }

  /** `s.replace(p, "")`: every non-overlapping occurrence of `p`, from the left, removed. */
  function RemoveAll(s: string, p: string): (r: string)
    requires p != []
    ensures |r| <= |s|
    decreases |s|
  {
    if |s| < |p| then s
    else if s[..|p|] == p then RemoveAll(s[|p|..], p)
    else [s[0]] + RemoveAll(s[1..], p)
  }

  // ---------------------------------------------------------------------
  // The extractors
  // ---------------------------------------------------------------------

  /** The value of a four-digit string, digit by digit. */
  lemma FourDigits(s: string)
    requires |s| == 4 && AllDigits(s)
    ensures DigitsValue(s) == (s[0] as int - 48) * 1000 + (s[1] as int - 48) * 100
                              + (s[2] as int - 48) * 10 + (s[3] as int - 48)
  {
    var s3, s2, s1 := s[..3], s[..2], s[..1];
    assert s3[..2] == s2 && s2[..1] == s1 && s1[..0] == [];
    assert s3[2] == s[2] && s2[1] == s[1] && s1[0] == s[0];
    assert DigitsValue(s1) == s[0] as int - 48;
    assert DigitsValue(s2) == DigitsValue(s1) * 10 + (s[1] as int - 48);
    assert DigitsValue(s3) == DigitsValue(s2) * 10 + (s[2] as int - 48);
  }

  /** `^(19|20)\d{2}$` */
  predicate YearPattern(s: string)
  {
    |s| == 4 && (s[..2] == "19" || s[..2] == "20") && IsDigitChar(s[2]) && IsDigitChar(s[3])
  }

  /** The year extractor as written: its lambda reads group 2, which the pattern lacks, so it always raises. */
  function YearAsWritten(s: string): (r: Extraction)
    ensures r != NoMatch <==> YearPattern(s)
    ensures !r.Extracted?
  {
    if YearPattern(s) then Raised else NoMatch
  }

  /** The year extractor as intended: the integer value of the four digits. */
  function YearExtraction(s: string): (r: Extraction)
    ensures r != NoMatch <==> YearPattern(s)
    ensures r != NoMatch ==> r.Extracted? && r.v.IntValue? && 1900 <= r.v.i <= 2099
  {
    if YearPattern(s) then
      assert s[0] == s[..2][0] && s[1] == s[..2][1];
      FourDigits(s);
      Extracted(IntValue(DigitsValue(s)))
    else NoMatch
  }

  /** `10\.\d+/.*` matching the whole of `s`. */
  predicate DoiNumeric(s: string)
  {
    |s| >= 3 && s[..3] == "10." &&
    var j := DigitRunEnd(s, 3);
    3 < j < |s| && s[j] == '/' && NoNewline(s[j + 1..])
  }

  /** The DOI value: the match with "doi:" and then "DOI:" removed. */
  function DoiValue(s: string): AttrValue
  {
    TextValue(RemoveAll(RemoveAll(s, "doi:"), "DOI:"))
  }

  /**
   * `^(?:doi:|10\.\d+/.*)$` as written: the "doi:" alternative is followed by
   * the end anchor, so it matches only the bare prefix.
   */
  function DoiAsWritten(s: string): (r: Extraction)
    ensures r != NoMatch <==> EqualsNoCase(s, "doi:") || DoiNumeric(s)
  {
    if EqualsNoCase(s, "doi:") || DoiNumeric(s) then Extracted(DoiValue(s)) else NoMatch
  }

  /** The DOI extractor as intended, `^(?:doi:)?10\.\d+/.*$`. */
  function DoiExtraction(s: string): (r: Extraction)
    ensures r != NoMatch <==> DoiNumeric(s) || (StartsWithNoCase(s, "doi:") && DoiNumeric(s[4..]))
  {
    if DoiNumeric(s) || (StartsWithNoCase(s, "doi:") && DoiNumeric(s[4..])) then Extracted(DoiValue(s))
    else NoMatch
  }

  predicate IssnSep(c: char) { IsSpaceChar(c) || c == '-' }

  /**
   * The two digit groups of `[\s-]?(\d{4})[\s-]?(\d{4})` matching the whole
   * of `r`; the separators are optional, so the length decides which are present.
   */
  function IssnGroups(r: string): (g: Option<(string, string)>)
    ensures g.Some? ==> |g.value.0| == 4 && |g.value.1| == 4 && AllDigits(g.value.0) && AllDigits(g.value.1)
  {
    if |r| == 8 && AllDigits(r) then Some((r[..4], r[4..]))
    else if |r| == 9 && IssnSep(r[0]) && AllDigits(r[1..]) then Some((r[1..5], r[5..]))
    else if |r| == 9 && AllDigits(r[..4]) && IssnSep(r[4]) && AllDigits(r[5..]) then Some((r[..4], r[5..]))
    else if |r| == 10 && IssnSep(r[0]) && AllDigits(r[1..5]) && IssnSep(r[5]) && AllDigits(r[6..]) then
      Some((r[1..5], r[6..]))
    else None
  }

  /** `^(?:ISSN|issn)[\s-]?(\d{4})[\s-]?(\d{4})$`, value "dddd-dddd". */
  function IssnExtraction(s: string): (r: Extraction)
    ensures r != NoMatch <==> StartsWithNoCase(s, "issn") && IssnGroups(s[4..]).Some?
  {
    if StartsWithNoCase(s, "issn") && IssnGroups(s[4..]).Some? then
      var g := IssnGroups(s[4..]).value;
      Extracted(TextValue(g.0 + "-" + g.1))
    else NoMatch
  }

  /** The text after an optional case-insensitive `prefix`. */
  function AfterPrefix(s: string, prefix: string): (b: string)
    ensures |b| <= |s|
  {
    if StartsWithNoCase(s, prefix) then s[|prefix|..] else s
  }

  /** `^(?:arxiv:)?(\d+\.\d+)$`, value the decimal part. */
  function ArxivExtraction(s: string): (r: Extraction)
    ensures r != NoMatch <==> Decimal(AfterPrefix(s, "arxiv:"))
  {
    var b := AfterPrefix(s, "arxiv:");
    if Decimal(b) then Extracted(TextValue(b)) else NoMatch
  }

  /** `^(?:PMID|pmid):?(\d+)$`, value the integer. */
  function PmidExtraction(s: string): (r: Extraction)
    ensures r != NoMatch <==> StartsWithNoCase(s, "pmid") && IsDigits(AfterPrefix(s[4..], ":"))
    ensures r != NoMatch ==> r.Extracted? && r.v.IntValue?
  {
    if StartsWithNoCase(s, "pmid") && IsDigits(AfterPrefix(s[4..], ":")) then
      Extracted(IntValue(DigitsValue(AfterPrefix(s[4..], ":"))))
    else NoMatch
  }

  /** `^(https?://\S+)$`, value the whole URL. */
  function UrlExtraction(s: string): (r: Extraction)
    ensures r != NoMatch ==> r == Extracted(TextValue(s))
  {
    var b := if StartsWithNoCase(s, "http://") then s[7..]
             else if StartsWithNoCase(s, "https://") then s[8..]
             else [];
    if b != [] && forall i :: 0 <= i < |b| ==> !IsSpaceChar(b[i]) then Extracted(TextValue(s)) else NoMatch
  }

  // ---------------------------------------------------------------------
  // `extract_metadata`
  // ---------------------------------------------------------------------

  /** The first attempt that produced a value, with its attribute name; `None` for `(None, None)`. */
  function FirstExtracted(attempts: seq<(Attr, Extraction)>): (r: Option<(string, AttrValue)>)
    ensures r.None? <==> forall i :: 0 <= i < |attempts| ==> !attempts[i].1.Extracted?
    ensures r.Some? ==>
      exists i :: (0 <= i < |attempts| && attempts[i].1.Extracted?
        && r.value == (AttrName(attempts[i].0), attempts[i].1.v)
        && forall k :: 0 <= k < i ==> !attempts[k].1.Extracted?)
  {
    if attempts == [] then None
    else if attempts[0].1.Extracted? then Some((AttrName(attempts[0].0), attempts[0].1.v))
    else
      var r := FirstExtracted(attempts[1..]);
      if r.Some? then
        var i :| 0 <= i < |attempts[1..]| && attempts[1..][i].1.Extracted?
          && r.value == (AttrName(attempts[1..][i].0), attempts[1..][i].1.v)
          && forall k :: 0 <= k < i ==> !attempts[1..][k].1.Extracted?;
        assert attempts[i + 1] == attempts[1..][i];
        r
      else r
  }

  /** The extractors as written, applied to `s` in list order. */
  function AttemptsAsWritten(s: string): seq<(Attr, Extraction)>
  {
    [(Year, YearAsWritten(s)), (Doi, DoiAsWritten(s)), (Issn, IssnExtraction(s)),
     (ArxivId, ArxivExtraction(s)), (Pmid, PmidExtraction(s)), (Url, UrlExtraction(s))]
  }

  /** The extractors with the year and DOI patterns as intended. */
  function Attempts(s: string): seq<(Attr, Extraction)>
  {
    [(Year, YearExtraction(s)), (Doi, DoiExtraction(s)), (Issn, IssnExtraction(s)),
     (ArxivId, ArxivExtraction(s)), (Pmid, PmidExtraction(s)), (Url, UrlExtraction(s))]
  }

  function ExtractMetadataAsWritten(s: string): Option<(string, AttrValue)>
  {
    FirstExtracted(AttemptsAsWritten(s))
  }

  function ExtractMetadata(s: string): Option<(string, AttrValue)>
  {
    FirstExtracted(Attempts(s))
  }

  // ---------------------------------------------------------------------
  // Properties
  // ---------------------------------------------------------------------

  /** The attempts follow `METADATA_EXTRACTORS` in order. */
  lemma AttemptsOrder(s: string)
    ensures |Attempts(s)| == |AttemptsAsWritten(s)| == |Extractors|
    ensures forall i :: 0 <= i < |Extractors| ==> Attempts(s)[i].0 == AttemptsAsWritten(s)[i].0 == Extractors[i]
  {
  }

  /**
   * The result is the first extractor in list order that yields a value; a
   * match whose extractor raised is passed over; `None` when none yields one.
   */
  lemma ExtractFirstMatch(s: string)
    ensures var r := ExtractMetadata(s);
      && (r.None? <==> forall i :: 0 <= i < 6 ==> !Attempts(s)[i].1.Extracted?)
      && (r.Some? ==>
            exists i :: (0 <= i < 6 && Attempts(s)[i].1.Extracted?
              && r.value == (AttrName(Extractors[i]), Attempts(s)[i].1.v)
              && forall k :: 0 <= k < i ==> !Attempts(s)[k].1.Extracted?))
  {
    AttemptsOrder(s);
  }

  /** Every attribute name has an edge type, and each edge type is "has_" followed by a tag. */
  lemma EdgeTypesCover()
    ensures forall a :: AttrName(a) in EdgeTypes && StartsWith(EdgeTypes[AttrName(a)], "has_")
  {
  }

  /** A text that starts with a digit matches neither a prefixed nor a URL pattern. */
  lemma DigitFirstUnprefixed(s: string)
    requires s != [] && IsDigitChar(s[0])
    ensures !EqualsNoCase(s, "doi:") && !StartsWithNoCase(s, "doi:")
    ensures !StartsWithNoCase(s, "issn") && !StartsWithNoCase(s, "pmid") && !StartsWithNoCase(s, "arxiv:")
    ensures UrlExtraction(s) == NoMatch
  {
    assert ToLowerChar(s[0]) == s[0];
  }

  /** A year matches no other extractor's pattern. */
  lemma YearMatchesOnlyYear(s: string)
    requires YearPattern(s)
    ensures DoiAsWritten(s) == NoMatch && DoiExtraction(s) == NoMatch
    ensures IssnExtraction(s) == NoMatch && ArxivExtraction(s) == NoMatch
    ensures PmidExtraction(s) == NoMatch && UrlExtraction(s) == NoMatch
  {
    assert s[0] == s[..2][0] && s[1] == s[..2][1];
    DigitFirstUnprefixed(s);
    assert s[..3][2] == s[2];
    DigitRunEndAt(s, 0, 4);
  }

  /** As written, a bare year yields no metadata at all. */
  lemma YearAsWrittenIsLost(s: string)
    requires YearPattern(s)
    ensures ExtractMetadataAsWritten(s).None?
  {
    YearMatchesOnlyYear(s);
  }

  /** As intended, a bare year yields the "year" attribute with its value. */
  lemma YearIsExtracted(s: string)
    requires YearPattern(s)
    ensures ExtractMetadata(s).Some? && ExtractMetadata(s).value.0 == "year"
    ensures var v := ExtractMetadata(s).value.1; v.IntValue? && 1900 <= v.i <= 2099
  {
  }

  lemma Year2020()
    ensures ExtractMetadataAsWritten("2020").None?
    ensures ExtractMetadata("2020") == Some(("year", IntValue(2020)))
  {
    YearAsWrittenIsLost("2020");
    assert YearPattern("2020") by { assert "2020"[..2] == "20"; }
    FourDigits("2020");
  }

  /** As written, a "doi:"-prefixed DOI matches no pattern. */
  lemma PrefixedDoiAsWritten()
    ensures ExtractMetadataAsWritten("doi:10.1000/182").None?
  {
    var s := "doi:10.1000/182";
    assert s[..3][0] == 'd';
    assert !EqualsNoCase(s, "doi:");
    assert !StartsWithNoCase(s, "issn") && !StartsWithNoCase(s, "pmid") && !StartsWithNoCase(s, "arxiv:");
    DigitRunEndAt(s, 0, 0);
    assert !StartsWithNoCase(s, "http://") && !StartsWithNoCase(s, "https://");
  }

  /** The DOI value of a "doi:"-prefixed text whose rest holds no 'd' or 'D' is that rest. */
  lemma DoiValuePrefixed(b: string)
    requires forall i :: 0 <= i < |b| ==> b[i] != 'd' && b[i] != 'D'
    ensures DoiValue("doi:" + b) == TextValue(b)
  {
    var s := "doi:" + b;
    assert s[..4] == "doi:" && s[4..] == b;
    RemoveAbsent(b, "doi:");
    RemoveAbsent(b, "DOI:");
  }

  /** As intended, a "doi:" prefix before a numeric DOI is accepted and removed from the value. */
  lemma PrefixedDoiExtracted(b: string)
    requires DoiNumeric(b)
    requires forall i :: 0 <= i < |b| ==> b[i] != 'd' && b[i] != 'D'
    ensures ExtractMetadata("doi:" + b) == Some(("doi", TextValue(b)))
  {
    var s := "doi:" + b;
    assert s[4..] == b;
    assert s[0] == 'd' && s[..2][0] == 'd' && s[..3][0] == 'd';
    assert StartsWithNoCase(s, "doi:");
    DoiValuePrefixed(b);
    DoiFirst(s);
  }

  lemma PrefixedDoi()
    ensures ExtractMetadata("doi:10.1000/182") == Some(("doi", TextValue("10.1000/182")))
  {
    DoiExampleFacts();
    PrefixedDoiExtracted("10.1000/182");
  }

  lemma DoiExampleFacts()
    ensures DoiNumeric("10.1000/182")
    ensures forall i :: 0 <= i < |"10.1000/182"| ==> "10.1000/182"[i] != 'd' && "10.1000/182"[i] != 'D'
    ensures "doi:" + "10.1000/182" == "doi:10.1000/182"
  {
    var b := "10.1000/182";
    assert b[..3] == "10.";
    DigitRunEndAt(b, 3, 7);
  }

  /** When the year extractor does not match, a DOI that matches wins. */
  lemma DoiFirst(s: string)
    requires YearExtraction(s) == NoMatch && DoiExtraction(s).Extracted?
    ensures ExtractMetadata(s) == Some(("doi", DoiExtraction(s).v))
  {
    var at := Attempts(s);
    assert FirstExtracted(at) == FirstExtracted(at[1..]);
  }

  /** Removing a pattern whose first character does not occur leaves the text unchanged. */
  lemma {:induction false} RemoveAbsent(s: string, p: string)
    requires p != []
    requires forall i :: 0 <= i < |s| ==> s[i] != p[0]
    ensures RemoveAll(s, p) == s
    decreases |s|
  {
    if |s| >= |p| {
      assert s[..|p|][0] == s[0];
      RemoveAbsent(s[1..], p);
      assert s == [s[0]] + s[1..];
    }
  }

  /** An ISSN value is always eight digits with a hyphen in the middle. */
  lemma IssnFormat(s: string)
    requires IssnExtraction(s).Extracted?
    ensures var t := IssnExtraction(s).v;
      && t.TextValue? && |t.t| == 9 && t.t[4] == '-'
      && forall i :: 0 <= i < 9 && i != 4 ==> IsDigitChar(t.t[i])
  {
    var g := IssnGroups(s[4..]).value;
    var t := g.0 + "-" + g.1;
    assert forall i :: 5 <= i < 9 ==> t[i] == g.1[i - 5];
  }

  /** Both groups of an ISSN without separators. */
  lemma IssnGroupsPlain(a: string, b: string)
    requires |a| == 4 && |b| == 4 && AllDigits(a) && AllDigits(b)
    ensures IssnGroups(a + b) == Some((a, b))
  {
    var r := a + b;
    assert r[..4] == a && r[4..] == b;
  }

  /** Both groups of an ISSN with a separator between them. */
  lemma IssnGroupsSep(a: string, b: string, c: char)
    requires |a| == 4 && |b| == 4 && AllDigits(a) && AllDigits(b) && IssnSep(c)
    ensures IssnGroups(a + [c] + b) == Some((a, b))
  {
    var r := a + [c] + b;
    assert r[0] == a[0];
    assert r[..4] == a && r[4] == c && r[5..] == b;
  }

  /** "ISSN" in any case, two groups of four digits, optionally separated, gives "dddd-dddd". */
  lemma IssnRoundTrip(p: string, a: string, b: string, sep: string)
    requires |p| == 4 && StartsWithNoCase(p, "issn")
    requires |a| == 4 && |b| == 4 && AllDigits(a) && AllDigits(b)
    requires sep == [] || (|sep| == 1 && IssnSep(sep[0]))
    ensures IssnExtraction(p + a + sep + b) == Extracted(TextValue(a + "-" + b))
  {
    var s := p + a + sep + b;
    assert s[4..] == a + sep + b;
    assert forall i :: 0 <= i < 4 ==> s[i] == p[i];
    if sep == [] {
      assert a + sep + b == a + b;
      IssnGroupsPlain(a, b);
    } else {
      assert a + sep + b == a + [sep[0]] + b;
      IssnGroupsSep(a, b, sep[0]);
    }
  }
}
