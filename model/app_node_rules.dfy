/**
 * The front-end node classification: an ordered cascade of noise,
 * metadata, entity, citation and concept rules over the stripped node
 * text. Each regular expression of the module is written out as a
 * predicate over the text; `re.match` anchors at the start, and `$` at the
 * end (the stripped text has no trailing newline).
 */
module AppNodeRules {
  import opened Common
  import opened GraphTypes

  const ConceptAllowList: set<string> := {
    "model", "method", "dataset", "algorithm", "hypothesis", "system", "generation", "training",
    "evaluation", "experiment", "metric", "result", "approach", "technique", "framework",
    "architecture", "theory", "principle", "assumption", "objective", "outcome", "parameter",
    "variable", "process", "procedure", "analysis", "implementation", "application", "strategy",
    "component", "module", "layer", "stage"
  }

  const EntityNerLabels: set<string> := {"PERSON", "ORG", "GPE", "PRODUCT"}

  const CitationKeywords: seq<string> := ["citation", "reference", "cite", "ref"]

  const NoiseBlacklist: set<string> := {
    "the", "a", "an", "of", "and", "or", "to", "in", "is", "are", "be", "by", "for", "with", "as",
    "from", "on", "at", "this", "that", "which", "who", "what", "where", "when", "why", "how", ""
  }

  predicate IsWordChar(c: char) { IsAlnumChar(c) || c == '_' }

  /** Only lowercase letters. */
  predicate LowerLetters(s: string)
  {
    forall i :: 0 <= i < |s| ==> IsLowerChar(s[i])
  }

  // ---------------------------------------------------------------------
  // Noise patterns
  // ---------------------------------------------------------------------

  /** `^[^\w\s]$` */
  predicate SinglePunctuation(n: string) { |n| == 1 && !IsWordChar(n[0]) && !IsSpaceChar(n[0]) }

  /** `^\.{2,}$` */
  predicate Ellipsis(n: string) { |n| >= 2 && forall i :: 0 <= i < |n| ==> n[i] == '.' }

  /** `^[_\-\s]*$` */
  predicate DashesOnly(n: string) { forall i :: 0 <= i < |n| ==> DashChar(n[i]) }

  predicate DashChar(c: char) { c == '_' || c == '-' || IsSpaceChar(c) }

  /** `^[0-9\.\-]{1,3}$` */
  predicate ShortNumericFragment(n: string)
  {
    1 <= |n| <= 3 && forall i :: 0 <= i < |n| ==> IsDigitChar(n[i]) || n[i] == '.' || n[i] == '-'
  }

  predicate NoisePattern(n: string)
  {
    SinglePunctuation(n) || Ellipsis(n) || DashesOnly(n) || ShortNumericFragment(n)
  }

  // ---------------------------------------------------------------------
  // Metadata patterns
  // ---------------------------------------------------------------------

  /** `^(19|20)\d{2}$` */
  predicate Year(n: string)
  {
    |n| == 4 && (n[..2] == "19" || n[..2] == "20") && IsDigitChar(n[2]) && IsDigitChar(n[3])
  }

  /** `^(doi:|10\.\d+/.*)`, case-insensitive. */
  predicate Doi(n: string)
  {
    || StartsWith(Lower(n), "doi:")
    || (StartsWith(n, "10.") && exists k :: 4 <= k < |n| && n[k] == '/' && forall j :: 3 <= j < k ==> IsDigitChar(n[j]))
  }

  predicate IsbnChar(c: char) { IsDigitChar(c) || IsSpaceChar(c) || c == '-' }

  /**
   * `^(?:ISBN|isbn)[\s-]?(?:10|13)?[\s-]?[\d\s-]+$`: the optional parts
   * consist of characters the final class accepts, so the text after the
   * prefix only has to be a non-empty run of that class.
   */
  predicate Isbn(n: string)
  {
    (StartsWith(n, "ISBN") || StartsWith(n, "isbn")) && |n| > 4 && forall i :: 4 <= i < |n| ==> IsbnChar(n[i])
  }

  predicate IsSep(c: char) { IsSpaceChar(c) || c == '-' }

  predicate Digits(s: string) { forall i :: 0 <= i < |s| ==> IsDigitChar(s[i]) }

  /** `[\s-]?\d{4}[\s-]?\d{4}$` */
  predicate IssnBody(r: string)
  {
    || (|r| == 8 && Digits(r))
    || (|r| == 9 && IsSep(r[0]) && Digits(r[1..]))
    || (|r| == 9 && Digits(r[..4]) && IsSep(r[4]) && Digits(r[5..]))
    || (|r| == 10 && IsSep(r[0]) && Digits(r[1..5]) && IsSep(r[5]) && Digits(r[6..]))
  }

  /** `^(?:ISSN|issn)[\s-]?\d{4}[\s-]?\d{4}$` */
  predicate Issn(n: string)
  {
    (StartsWith(n, "ISSN") || StartsWith(n, "issn")) && IssnBody(n[4..])
  }

  /** `^https?://|^www\.` */
  predicate Url(n: string)
  {
    StartsWith(n, "http://") || StartsWith(n, "https://") || StartsWith(n, "www.")
  }

  /** `^arxiv:\d+\.\d+$`, case-insensitive. */
  predicate Arxiv(n: string)
  {
    && StartsWith(Lower(n), "arxiv:")
    && exists k :: 7 <= k < |n| - 1 && n[k] == '.' && Digits(n[6..k]) && Digits(n[k + 1..])
  }

  /** `^(?:PMID|pmid):\d+$`, case-insensitive. */
  predicate Pmid(n: string)
  {
    StartsWith(Lower(n), "pmid:") && |n| > 5 && Digits(n[5..])
  }

  /** `^\d+$` together with `len(n) <= 5`. */
  predicate ShortNumber(n: string) { IsDigits(n) && |n| <= 5 }

  /** `^[a-f0-9\-]{20,}$` */
  predicate UuidLike(n: string)
  {
    |n| >= 20 && forall i :: 0 <= i < |n| ==> IsDigitChar(n[i]) || ('a' <= n[i] <= 'f') || n[i] == '-'
  }

  predicate MetadataPattern(n: string)
  {
    Year(n) || Doi(n) || Isbn(n) || Issn(n) || Url(n) || Arxiv(n) || Pmid(n) || ShortNumber(n) || UuidLike(n)
  }

  // ---------------------------------------------------------------------
  // Entity and citation rules
  // ---------------------------------------------------------------------

  /** `^[A-Z][A-Z0-9]+$` */
  predicate Acronym(n: string)
  {
    |n| >= 2 && IsUpperChar(n[0]) && forall i :: 1 <= i < |n| ==> IsUpperChar(n[i]) || IsDigitChar(n[i])
  }

  predicate EntityRule(n: string, ner: Option<string>)
  {
    (ner.Some? && ner.value != "" && ner.value in EntityNerLabels)
    || Acronym(n)
    || (n != [] && IsUpperChar(n[0]) && |n| > 1)
  }

  predicate CitationRule(n: string)
  {
    exists k :: 0 <= k < |CitationKeywords| && Contains(Lower(n), CitationKeywords[k])
  }

  /**
   * `classify_node`; `None` stands for a node that is not a string. The
   * allow-list test and the fallback both give "concept", so the allow-list
   * never changes a class.
   */
  function Classify(node: Option<string>, ner: Option<string>): (r: NodeClass)
    ensures node.None? ==> r == Noise
  {
    if node.None? || node.value == "" then Noise else ClassifyText(Strip(node.value), ner)
  }

  /** The cascade on the stripped text. */
  function ClassifyText(n: string, ner: Option<string>): NodeClass
  {
    if n == "" then Noise
    else if Lower(n) in NoiseBlacklist then Noise
    else if NoisePattern(n) then Noise
    else if MetadataPattern(n) then Metadata
    else if EntityRule(n, ner) then Entity
    else if CitationRule(n) then Citation
    else Concept
  }

  // ---------------------------------------------------------------------
  // Properties
  // ---------------------------------------------------------------------

  /** Blank nodes and stop words are noise. */
  lemma StopWordsAreNoise(s: string, ner: Option<string>)
    requires IsBlank(s) || Lower(Strip(s)) in NoiseBlacklist
    ensures Classify(Some(s), ner) == Noise
  {
    StripBlank(s);
  }

  /** The stop words are lowercase letters only. */
  lemma BlacklistLetters()
    ensures forall w :: w in NoiseBlacklist ==> LowerLetters(w)
  {
  }

  /** So is the citation keyword list. */
  lemma KeywordsLetters()
    ensures forall k :: 0 <= k < |CitationKeywords| ==> |CitationKeywords[k]| > 0 && IsLowerChar(CitationKeywords[k][0])
  {
  }

  lemma DigitsTrimmed(s: string)
    requires IsDigits(s)
    ensures Strip(s) == s
  {
    StripTrimmed(s);
  }

  lemma DigitsNotStopWord(s: string)
    requires IsDigits(s)
    ensures Lower(s) !in NoiseBlacklist
  {
    BlacklistLetters();
    assert !IsLowerChar(Lower(s)[0]);
  }

  /** A text of digits is neither a single punctuation mark, an ellipsis nor only dashes. */
  lemma DigitsNotPunctuation(s: string)
    requires IsDigits(s)
    ensures !SinglePunctuation(s) && !Ellipsis(s) && !DashesOnly(s)
  {
    assert IsDigitChar(s[0]);
  }

  /** A number of six to nineteen digits matches no metadata pattern. */
  lemma LongDigitsNotMetadata(s: string)
    requires IsDigits(s) && 6 <= |s| < 20
    ensures !MetadataPattern(s)
  {
    DigitsNotIdentifier(s);
    DigitsNotPrefixed(s);
  }

  lemma DigitsNotIdentifier(s: string)
    requires IsDigits(s)
    ensures !Isbn(s) && !Issn(s) && !Url(s)
  {
    assert IsDigitChar(s[0]);
  }

  lemma DigitsNotPrefixed(s: string)
    requires IsDigits(s) && |s| > 2
    ensures !Doi(s) && !Arxiv(s) && !Pmid(s)
  {
    assert s[2] != '.';
    assert IsDigitChar(Lower(s)[0]);
  }

  /** Nor is it an entity (without an entity label) or a citation. */
  lemma DigitsNoEntityNoCitation(s: string, ner: Option<string>)
    requires IsDigits(s)
    requires ner.None? || ner.value !in EntityNerLabels
    ensures !EntityRule(s, ner) && !CitationRule(s)
  {
    assert IsDigitChar(s[0]);
    KeywordsLetters();
    forall k | 0 <= k < |CitationKeywords| ensures !Contains(Lower(s), CitationKeywords[k]) {
      var kw := CitationKeywords[k];
      forall i | 0 <= i <= |s| - |kw| ensures !OccursAt(Lower(s), kw, i) {
        assert Lower(s)[i..i + |kw|][0] == Lower(s)[i] != kw[0];
      }
    }
  }

  /** The cascade reaches the metadata rules when no noise rule applies. */
  lemma MetadataStage(n: string, ner: Option<string>)
    requires n != "" && Lower(n) !in NoiseBlacklist && !NoisePattern(n) && MetadataPattern(n)
    ensures ClassifyText(n, ner) == Metadata
  {
  }

  /** A text no earlier rule claims is an entity when an entity rule holds. */
  lemma EntityStage(n: string, ner: Option<string>)
    requires n != "" && Lower(n) !in NoiseBlacklist && !NoisePattern(n) && !MetadataPattern(n)
    requires EntityRule(n, ner)
    ensures ClassifyText(n, ner) == Entity
  {
  }

  /** A text no rule claims is a concept. */
  lemma ConceptStage(n: string, ner: Option<string>)
    requires n != "" && Lower(n) !in NoiseBlacklist && !NoisePattern(n) && !MetadataPattern(n)
    requires !EntityRule(n, ner) && !CitationRule(n)
    ensures ClassifyText(n, ner) == Concept
  {
  }

  /**
   * Noise patterns come before metadata: a number of at most three digits
   * is noise, while one of four or five digits (years among them) is
   * metadata.
   */
  lemma ShortNumbers(s: string, ner: Option<string>)
    requires IsDigits(s) && |s| <= 5
    ensures |s| <= 3 ==> Classify(Some(s), ner) == Noise
    ensures |s| >= 4 ==> Classify(Some(s), ner) == Metadata
    ensures Year(s) ==> |s| == 4
  {
    DigitsTrimmed(s);
    if |s| <= 3 {
      ShortDigitsNoise(s, ner);
    } else {
      DigitsNotStopWord(s);
      DigitsNotPunctuation(s);
      assert !ShortNumericFragment(s);
      assert ShortNumber(s);
      MetadataStage(s, ner);
    }
  }

  lemma ShortDigitsNoise(s: string, ner: Option<string>)
    requires IsDigits(s) && |s| <= 3
    ensures ClassifyText(s, ner) == Noise
  {
    assert ShortNumericFragment(s);
  }

  /** A number of six to nineteen digits matches no rule and falls through to "concept". */
  lemma LongNumbersAreConcepts(s: string, ner: Option<string>)
    requires IsDigits(s) && 6 <= |s| < 20
    requires ner.None? || ner.value !in EntityNerLabels
    ensures Classify(Some(s), ner) == Concept
  {
    DigitsTrimmed(s);
    DigitsNotStopWord(s);
    DigitsNotPunctuation(s);
    LongDigitsNotMetadata(s);
    DigitsNoEntityNoCitation(s, ner);
    ConceptStage(s, ner);
  }

  predicate IsWord(s: string)
  {
    forall i :: 0 <= i < |s| ==> IsAlphaChar(s[i])
  }

  lemma WordTrimmed(s: string)
    requires IsWord(s) && s != []
    ensures Strip(s) == s
  {
    StripTrimmed(s);
  }

  lemma WordNotNoisePattern(s: string)
    requires IsWord(s) && s != []
    ensures !NoisePattern(s)
  {
    assert IsAlphaChar(s[0]);
  }

  /** A word starting with a letter has no identifier prefix. */
  lemma WordNotIdentifier(s: string)
    requires IsWord(s) && s != []
    ensures !Isbn(s) && !Issn(s) && !Url(s)
  {
    if |s| > 4 {
      assert IsAlphaChar(s[4]) && s[4..][0] == s[4];
    }
    if |s| > 5 { assert IsAlphaChar(s[5]); }
    if |s| >= 4 { assert IsAlphaChar(s[3]); }
  }

  /** Nor a prefix ending in a colon, whatever its case. */
  lemma WordNotPrefixed(s: string)
    requires IsWord(s) && s != []
    ensures !Doi(s) && !Arxiv(s) && !Pmid(s)
  {
    assert IsAlphaChar(s[0]);
    if |s| >= 4 { assert Lower(s)[3] == ToLowerChar(s[3]); }
    if |s| >= 5 { assert Lower(s)[4] == ToLowerChar(s[4]); }
    if |s| >= 6 { assert Lower(s)[5] == ToLowerChar(s[5]); }
  }

  /**
   * A word matches no metadata pattern unless it is a run of twenty or
   * more of the letters a to f, which the identifier pattern takes.
   */
  lemma WordNotMetadata(s: string)
    requires IsWord(s) && s != []
    requires |s| < 20 || IsUpperChar(s[0])
    ensures !MetadataPattern(s)
  {
    assert IsAlphaChar(s[0]);
    WordNotIdentifier(s);
    WordNotPrefixed(s);
  }

  /**
   * Entity rules come before the concept allow-list: a capitalized word of
   * two or more letters that is not a stop word is an entity ("Model"
   * included, although "model" is an allowed concept).
   */
  lemma CapitalizedWordIsEntity(s: string, ner: Option<string>)
    requires IsWord(s) && |s| >= 2 && IsUpperChar(s[0]) && Lower(s) !in NoiseBlacklist
    ensures Classify(Some(s), ner) == Entity
  {
    WordTrimmed(s);
    WordNotNoisePattern(s);
    WordNotMetadata(s);
    EntityStage(s, ner);
  }

  lemma CapitalizedModel()
    ensures Classify(Some("Model"), None) == Entity
    ensures Lower("Model") in ConceptAllowList
  {
    assert Lower("Model") == "model";
    CapitalizedWordIsEntity("Model", None);
  }

  /**
   * A lowercase word of two to nineteen letters that is not a stop word and
   * holds no citation keyword is a concept unless its NER label names an
   * entity.
   */
  lemma LowercaseWordIsConcept(s: string, ner: Option<string>)
    requires LowerLetters(s) && 2 <= |s| < 20
    requires s !in NoiseBlacklist && !CitationRule(s)
    requires ner.None? || ner.value !in EntityNerLabels
    ensures Classify(Some(s), ner) == Concept
  {
    assert IsWord(s) && !IsUpperChar(s[0]);
    LowerLettersUnchanged(s);
    WordTrimmed(s);
    WordNotNoisePattern(s);
    WordNotMetadata(s);
    ConceptStage(s, ner);
  }

  lemma LowerLettersUnchanged(s: string)
    requires LowerLetters(s)
    ensures Lower(s) == s
  {
    assert forall i :: 0 <= i < |s| ==> Lower(s)[i] == s[i];
  }
}
