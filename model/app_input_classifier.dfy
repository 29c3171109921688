/**
 * The application's text classifier: user input is CONTENT to ingest, an
 * INTENT, a GREETING or MIXED. Deterministic mode checks greetings first,
 * then combines an intent match with a content estimate; model mode parses
 * the model's reply line by line and falls back to the deterministic rules
 * when the call fails. The intent and academic-term regular expressions and
 * the model call are parameters; the greeting patterns are anchored
 * prefixes and are written out.
 */
module AppInputClassifier {
  import opened Common
  import N = IngestNormalizer

  datatype Label = Content | Intent | Greeting | Mixed

  /**
   * A classification. The human-readable `reasoning` text is not part of
   * the model.
   */
  datatype ClassificationResult = ClassificationResult(
    category: Label,
    confidence: real,
    contentPortion: Option<string>,
    intentPortion: Option<string>)

  /** `is_content_available` */
  predicate IsContentAvailable(r: ClassificationResult)
  {
    r.category in {Content, Mixed}
  }

  /** `get_content_text` */
  function GetContentText(r: ClassificationResult): (t: string)
    ensures r.category != Mixed ==> t == ""
    ensures r.category == Mixed && r.contentPortion.Some? ==> t == r.contentPortion.value
    ensures t != "" ==> IsContentAvailable(r) && Truthy(r.contentPortion)
  {
    if r.category == Content then ""
    else if r.category == Mixed then Get(r.contentPortion, "")
    else ""
  }

  /**
   * Content is available for exactly the two labels that carry content,
   * and text is handed out only for a mixed input's content part: pure
   * content hands out nothing, because the caller already holds the text.
   */
  lemma ContentAccessorsSpec(r: ClassificationResult)
    ensures IsContentAvailable(r) <==> r.category == Content || r.category == Mixed
    ensures r.category == Content ==> IsContentAvailable(r) && GetContentText(r) == ""
    ensures GetContentText(r) != "" <==> r.category == Mixed && Truthy(r.contentPortion)
  {
  }

  // ---------------------------------------------------------------------
  // Deterministic classification
  // ---------------------------------------------------------------------

  /** The prefixes the four anchored greeting patterns accept. */
  const GreetingPrefixes: seq<string> :=
    ["hello", "hi", "hey", "greetings", "good morning", "good afternoon", "good evening",
     "thanks", "thank you", "appreciate it",
     "welcome", "nice to meet", "glad to",
     "how are you", "how do you do"]

  /** `_is_greeting`: the lowercased, stripped text starts with a greeting. */
  predicate IsGreeting(textLower: string)
  {
    exists k :: 0 <= k < |GreetingPrefixes| && StartsWith(textLower, GreetingPrefixes[k])
  }

  /**
   * `_extract_intent`. `matchIntent` gives the whole match of the first of
   * the four intent patterns found in the lowercased text, if any.
   */
  function ExtractIntent(text: string, matchIntent: string -> Option<string>): (r: (Label, real, Option<string>))
    ensures r.0 == Intent
    ensures r.2.Some? <==> matchIntent(Lower(text)).Some?
    ensures r.1 == if r.2.Some? then 0.85 else 0.0
  {
    var m := matchIntent(Lower(text));
    if m.Some? then (Intent, 0.85, m) else (Intent, 0.0, None)
  }

  /** The characters of the sentence-splitting class `[.!?]`. */
  predicate IsTerminator(c: char) { c == '.' || c == '!' || c == '?' }

  /** The number of maximal runs of terminators in `s`. */
  function TerminatorRuns(s: string): nat
  {
    if s == [] then 0
    else
      var n := |s|;
      TerminatorRuns(s[..n - 1])
      + (if IsTerminator(s[n - 1]) && (n == 1 || !IsTerminator(s[n - 2])) then 1 else 0)
  }

  /** `len(re.split(r'[.!?]+', s))`: one more piece than there are runs. */
  function SentenceCount(s: string): nat
  {
    TerminatorRuns(s) + 1
  }

  /** A text splits into two or more pieces exactly when it holds a terminator. */
  lemma {:induction false} SentenceCountSpec(s: string)
    ensures SentenceCount(s) >= 2 <==> exists i :: 0 <= i < |s| && IsTerminator(s[i])
    decreases |s|
  {
    if s != [] {
      var n := |s|;
      var p := s[..n - 1];
      SentenceCountSpec(p);
      assert forall i :: 0 <= i < n - 1 ==> p[i] == s[i];
      if exists i :: 0 <= i < n - 1 && IsTerminator(p[i]) {
        var i :| 0 <= i < n - 1 && IsTerminator(p[i]);
        assert IsTerminator(s[i]);
      } else if IsTerminator(s[n - 1]) {
        assert n == 1 || !IsTerminator(p[n - 2]);
      } else {
        forall i | 0 <= i < n
          ensures !IsTerminator(s[i])
        {
          if i < n - 1 {
            assert s[i] == p[i];
          }
        }
      }
    }
  }

  /**
   * The number of academic patterns (of three) that occur in the text,
   * ignoring case; `academic(k, text)` says whether pattern `k` occurs.
   */
  function AcademicScore(text: string, academic: (nat, string) -> bool): (n: nat)
    ensures n <= 3
  {
    (if academic(0, text) then 1 else 0)
    + (if academic(1, text) then 1 else 0)
    + (if academic(2, text) then 1 else 0)
  }

  /** `_extract_content`: the text itself with a confidence, or nothing. */
  function ExtractContent(text: string, academic: (nat, string) -> bool): (r: (Option<string>, real))
  {
    var len := |Strip(text)|;
    if len < 50 then (None, 0.0)
    else
      var sentences := SentenceCount(text);
      if sentences < 2 then (None, 0.3)
      else
        var base := if len > 200 then 0.6 else 0.5;
        var sentenceBonus := MinReal(0.3, (sentences - 2) as real * 0.05);
        var academicBonus := AcademicScore(text, academic) as real * 0.15;
        (Some(text), MinReal(1.0, base + sentenceBonus + academicBonus))
  }

  /**
   * Short text (under 50 characters once stripped) is never content; a
   * text without a sentence terminator is not content either; otherwise
   * the whole text is content, with a confidence between 0.5 and 1 that is
   * at least 0.6 for long texts. Every confidence lies in [0, 1].
   */
  lemma ExtractContentSpec(text: string, academic: (nat, string) -> bool)
    ensures var (c, conf) := ExtractContent(text, academic);
      0.0 <= conf <= 1.0
      && (|Strip(text)| < 50 ==> c == None && conf == 0.0)
      && (|Strip(text)| >= 50 && (forall i :: 0 <= i < |text| ==> !IsTerminator(text[i]))
          ==> c == None && conf == 0.3)
      && (c.Some? <==> |Strip(text)| >= 50 && exists i :: 0 <= i < |text| && IsTerminator(text[i]))
      && (c.Some? ==> c.value == text && Truthy(c) && 0.5 <= conf)
      && (c.Some? && |Strip(text)| > 200 ==> 0.6 <= conf)
  {
    SentenceCountSpec(text);
  }

  /** `_classify_deterministic` */
  function ClassifyDeterministic(
    text: string, matchIntent: string -> Option<string>, academic: (nat, string) -> bool): (r: ClassificationResult)
  {
    if IsGreeting(Strip(Lower(text))) then ClassificationResult(Greeting, 0.95, None, None)
    else
      var (intentLabel, intentConfidence, intentText) := ExtractIntent(text, matchIntent);
      var (contentText, contentConfidence) := ExtractContent(text, academic);
      if Truthy(intentText) && Truthy(contentText) then
        ClassificationResult(Mixed, MinReal(intentConfidence, contentConfidence), contentText, intentText)
      else if Truthy(intentText) then ClassificationResult(intentLabel, intentConfidence, None, None)
      else if Truthy(contentText) then ClassificationResult(Content, contentConfidence, None, None)
      else ClassificationResult(Content, 0.5, None, None)
  }

  /**
   * The deterministic decision table: a greeting wins over everything and
   * is the only way to GREETING; an intent together with content is MIXED
   * at the smaller confidence, with both parts; an intent alone is INTENT
   * at 0.85; content alone, or nothing recognisable, is CONTENT (at 0.5 in
   * the second case); every confidence lies in [0, 1].
   */
  lemma ClassifyDeterministicSpec(
    text: string, matchIntent: string -> Option<string>, academic: (nat, string) -> bool)
    ensures var r := ClassifyDeterministic(text, matchIntent, academic);
      var greeting := IsGreeting(Strip(Lower(text)));
      var intent := Truthy(matchIntent(Lower(text)));
      var content := ExtractContent(text, academic);
      (r.category == Greeting <==> greeting)
      && (greeting ==> r.confidence == 0.95 && r.contentPortion == None && r.intentPortion == None)
      && (!greeting && intent && content.0.Some?
          ==> r.category == Mixed && r.confidence == MinReal(0.85, content.1)
              && r.contentPortion == Some(text) && r.intentPortion == matchIntent(Lower(text)))
      && (!greeting && intent && content.0.None? ==> r.category == Intent && r.confidence == 0.85)
      && (!greeting && !intent && content.0.Some? ==> r.category == Content && r.confidence == content.1)
      && (!greeting && !intent && content.0.None? ==> r.category == Content && r.confidence == 0.5)
      && 0.0 <= r.confidence <= 1.0
  {
    var r := ClassifyDeterministic(text, matchIntent, academic);
    if !IsGreeting(Strip(Lower(text))) {
      ExtractContentSpec(text, academic);
      var m := matchIntent(Lower(text));
      var c := ExtractContent(text, academic);
      if Truthy(m) {
        assert ExtractIntent(text, matchIntent) == (Intent, 0.85, m);
        if c.0.Some? {
          assert r == ClassificationResult(Mixed, MinReal(0.85, c.1), c.0, m);
        } else {
          assert r == ClassificationResult(Intent, 0.85, None, None);
        }
      } else {
        assert !Truthy(ExtractIntent(text, matchIntent).2);
        if c.0.Some? {
          assert r == ClassificationResult(Content, c.1, None, None);
        } else {
          assert r == ClassificationResult(Content, 0.5, None, None);
        }
      }
    }
  }

  // ---------------------------------------------------------------------
  // Parsing the model's reply
  // ---------------------------------------------------------------------

  /** `int(s)` for a stripped string: an optional sign, then digits, single underscores between them. */
  function PyInt(s: string): (r: Option<int>)
    ensures IsDigits(s) ==> r == Some(DigitsValue(s))
  {
    if s != [] && (s[0] == '+' || s[0] == '-') && IsIntBody(s[1..]) then
      var v: int := DigitsValue(WithoutUnderscores(s[1..]));
      Some(if s[0] == '-' then -v else v)
    else if IsIntBody(s) then
      WithoutUnderscoresOfDigits(s);
      Some(DigitsValue(WithoutUnderscores(s)))
    else None
  }

  /** Digits, with single underscores allowed between two digits. */
  predicate IsIntBody(s: string)
  {
    s != [] && IsDigitChar(s[0]) && IsDigitChar(s[|s| - 1])
    && (forall i :: 0 <= i < |s| ==> IsDigitChar(s[i]) || s[i] == '_')
    && (forall i :: 0 <= i < |s| - 1 ==> s[i] == '_' ==> s[i + 1] != '_')
  }

  function WithoutUnderscores(s: string): (r: string)
    requires forall i :: 0 <= i < |s| ==> IsDigitChar(s[i]) || s[i] == '_'
    ensures forall i :: 0 <= i < |r| ==> IsDigitChar(r[i])
  {
    if s == [] then []
    else (if s[0] == '_' then [] else [s[0]]) + WithoutUnderscores(s[1..])
  }

  lemma {:induction false} WithoutUnderscoresOfDigits(s: string)
    requires forall i :: 0 <= i < |s| ==> IsDigitChar(s[i]) || s[i] == '_'
    ensures (forall i :: 0 <= i < |s| ==> IsDigitChar(s[i])) ==> WithoutUnderscores(s) == s
    decreases |s|
  {
    if s != [] && forall i :: 0 <= i < |s| ==> IsDigitChar(s[i]) {
      assert forall i :: 0 <= i < |s| - 1 ==> s[1..][i] == s[i + 1];
      WithoutUnderscoresOfDigits(s[1..]);
      assert s[0] != '_';
      assert [s[0]] + s[1..] == s;
    }
  }

  /** `int(str(n)) == n`, with or without a sign. */
  lemma PyIntOfString(n: nat)
    ensures PyInt(NatToString(n)) == Some(n)
    ensures PyInt("-" + NatToString(n)) == Some(-(n as int))
  {
    var s := NatToString(n);
    DigitsValueOfString(n);
    WithoutUnderscoresOfDigits(s);
    assert IsIntBody(s);
    var t := "-" + s;
    assert t[0] == '-' && t[1..] == s;
    assert PyInt(t) == Some(-(DigitsValue(WithoutUnderscores(s)) as int));
  }

  /** The four kinds of line the reply format knows, and the prefix of each. */
  datatype LineKind = LabelField | ConfidenceField | ContentField | IntentField

  function KeyOf(k: LineKind): (key: string)
    ensures key != []
  {
    match k
    case LabelField => "LABEL:"
    case ConfidenceField => "CONFIDENCE:"
    case ContentField => "CONTENT_PORTION:"
    case IntentField => "INTENT_PORTION:"
  }

  /** Which branch of the loop's `elif` chain a line takes, if any. */
  function KindOf(line: string): Option<LineKind>
  {
    if StartsWith(line, KeyOf(LabelField)) then Some(LabelField)
    else if StartsWith(line, KeyOf(ConfidenceField)) then Some(ConfidenceField)
    else if StartsWith(line, KeyOf(ContentField)) then Some(ContentField)
    else if StartsWith(line, KeyOf(IntentField)) then Some(IntentField)
    else None
  }

  /** No line starts with two of the keys, so the order of the `elif` chain does not matter. */
  lemma KindOfSpec(line: string, k: LineKind)
    ensures KindOf(line) == Some(k) <==> StartsWith(line, KeyOf(k))
  {
    if StartsWith(line, KeyOf(ConfidenceField)) || StartsWith(line, KeyOf(ContentField)) {
      assert line[0] == 'C' && line[1] == 'O' && line[2] == 'N';
      if StartsWith(line, KeyOf(ConfidenceField)) {
        assert line[3] == 'F';
      } else {
        assert line[3] == 'T';
      }
    } else if StartsWith(line, KeyOf(LabelField)) {
      assert line[0] == 'L';
    } else if StartsWith(line, KeyOf(IntentField)) {
      assert line[0] == 'I';
    }
  }

  /** The value after a key: `line.replace(key, "").strip()`. */
  function FieldValue(line: string, k: LineKind): string
  {
    Strip(N.Replace(line, KeyOf(k), ""))
  }

  /** `"" → None`: the `or None` of the portion lines. */
  function NonEmpty(s: string): (r: Option<string>)
    ensures r.Some? ==> r.value != ""
    ensures r.None? <==> s == ""
  {
    if s == "" then None else Some(s)
  }

  /** The last line of kind `k`: the one whose assignment survives the loop. */
  function LastOf(lines: seq<string>, k: LineKind): (r: Option<string>)
    ensures r.Some? ==> KindOf(r.value) == Some(k) && r.value in lines
    ensures r.None? <==> forall j :: 0 <= j < |lines| ==> KindOf(lines[j]) != Some(k)
  {
    if lines == [] then None
    else if KindOf(lines[|lines| - 1]) == Some(k) then Some(lines[|lines| - 1])
    else
      var r := LastOf(lines[..|lines| - 1], k);
      assert forall j :: 0 <= j < |lines| - 1 ==> lines[..|lines| - 1][j] == lines[j];
      r
  }

  function LabelText(lines: seq<string>): string
  {
    var l := LastOf(lines, LabelField);
    if l.Some? then Upper(FieldValue(l.value, LabelField)) else ""
  }

  function ConfidenceValue(lines: seq<string>): int
  {
    var l := LastOf(lines, ConfidenceField);
    if l.Some? then Get(PyInt(FieldValue(l.value, ConfidenceField)), 50) else 50
  }

  function Portion(lines: seq<string>, k: LineKind): Option<string>
  {
    var l := LastOf(lines, k);
    if l.Some? then NonEmpty(FieldValue(l.value, k)) else None
  }

  /** The label a label text names; anything else falls back to CONTENT. */
  function LabelOf(s: string): (l: Label)
    ensures s == "INTENT" <==> l == Intent
    ensures s == "GREETING" <==> l == Greeting
    ensures s == "MIXED" <==> l == Mixed
    ensures s !in {"INTENT", "GREETING", "MIXED"} <==> l == Content
  {
    if s == "CONTENT" then Content
    else if s == "INTENT" then Intent
    else if s == "GREETING" then Greeting
    else if s == "MIXED" then Mixed
    else Content
  }

  /** The reply's lines: `response.strip().split('\n')`. */
  function ReplyLines(response: string): seq<string>
  {
    N.SplitOn(Strip(response), '\n')
  }

  /** What `_parse_llm_response` returns, stated line by line: the last line of each kind wins. */
  function ParsedReply(response: string): ClassificationResult
  {
    var lines := ReplyLines(response);
    ClassificationResult(
      LabelOf(LabelText(lines)),
      ConfidenceValue(lines) as real / 100.0,
      Portion(lines, ContentField),
      Portion(lines, IntentField))
  }

  /** One more line changes only the field of its kind, if any. */
  lemma FieldsStep(lines: seq<string>, i: nat)
    requires i < |lines|
    ensures var kind, p, q := KindOf(lines[i]), lines[..i], lines[..i + 1];
      (kind == Some(LabelField) ==> LabelText(q) == Upper(FieldValue(lines[i], LabelField)))
      && (kind != Some(LabelField) ==> LabelText(q) == LabelText(p))
      && (kind == Some(ConfidenceField)
          ==> ConfidenceValue(q) == Get(PyInt(FieldValue(lines[i], ConfidenceField)), 50))
      && (kind != Some(ConfidenceField) ==> ConfidenceValue(q) == ConfidenceValue(p))
      && (kind == Some(ContentField) ==> Portion(q, ContentField) == NonEmpty(FieldValue(lines[i], ContentField)))
      && (kind != Some(ContentField) ==> Portion(q, ContentField) == Portion(p, ContentField))
      && (kind == Some(IntentField) ==> Portion(q, IntentField) == NonEmpty(FieldValue(lines[i], IntentField)))
      && (kind != Some(IntentField) ==> Portion(q, IntentField) == Portion(p, IntentField))
  {
    var q := lines[..i + 1];
    assert q[..i] == lines[..i];
    assert q[|q| - 1] == lines[i];
  }

  /** `_parse_llm_response`: one pass over the lines, each recognised line overwriting its field. */
  method ParseLlmResponse(response: string) returns (r: ClassificationResult)
    ensures r == ParsedReply(response)
  {
    var lines := ReplyLines(response);
    var labelStr := "";
    var confidence := 50;
    var contentPortion: Option<string> := None;
    var intentPortion: Option<string> := None;
    var i := 0;
    while i < |lines|
      invariant 0 <= i <= |lines|
      invariant labelStr == LabelText(lines[..i])
      invariant confidence == ConfidenceValue(lines[..i])
      invariant contentPortion == Portion(lines[..i], ContentField)
      invariant intentPortion == Portion(lines[..i], IntentField)
    {
      var line := lines[i];
      FieldsStep(lines, i);
      if StartsWith(line, KeyOf(LabelField)) {
        labelStr := Upper(FieldValue(line, LabelField));
      } else if StartsWith(line, KeyOf(ConfidenceField)) {
        var v := PyInt(FieldValue(line, ConfidenceField));
        confidence := if v.Some? then v.value else 50;
      } else if StartsWith(line, KeyOf(ContentField)) {
        contentPortion := NonEmpty(FieldValue(line, ContentField));
      } else if StartsWith(line, KeyOf(IntentField)) {
        intentPortion := NonEmpty(FieldValue(line, IntentField));
      }
      i := i + 1;
    }
    assert lines[..i] == lines;
    r := ClassificationResult(LabelOf(labelStr), confidence as real / 100.0, contentPortion, intentPortion);
  }

  /**
   * The parsing rules: the label is read without regard to letter case and
   * an unknown or missing one is CONTENT; a missing or non-integer
   * confidence counts as 50; the confidence is the percentage divided by
   * 100; a portion is never the empty string.
   */
  lemma ParsedReplySpec(response: string)
    ensures var lines := ReplyLines(response);
      var r := ParsedReply(response);
      var c := LastOf(lines, ConfidenceField);
      (LabelText(lines) !in {"INTENT", "GREETING", "MIXED"} ==> r.category == Content)
      && (LastOf(lines, LabelField).None? ==> r.category == Content)
      && (c.None? ==> r.confidence == 0.5)
      && (c.Some? && PyInt(FieldValue(c.value, ConfidenceField)).None? ==> r.confidence == 0.5)
      && (c.Some? && PyInt(FieldValue(c.value, ConfidenceField)).Some?
          ==> r.confidence == PyInt(FieldValue(c.value, ConfidenceField)).value as real / 100.0)
      && (r.contentPortion.Some? ==> r.contentPortion.value != "")
      && (r.intentPortion.Some? ==> r.intentPortion.value != "")
  {
  }

  /** Replacing a pattern in a string without its first character changes nothing. */
  lemma {:induction false} ReplaceAbsent(s: string, pat: string, sub: string)
    requires pat != [] && pat[0] !in s
    ensures N.Replace(s, pat, sub) == s
    decreases |s|
  {
    if |s| >= |pat| {
      assert s[..|pat|][0] == s[0];
      ReplaceAbsent(s[1..], pat, sub);
      assert [s[0]] + s[1..] == s;
    }
  }

  /** Removing a key from the front of a line whose rest lacks the key's first character leaves the rest. */
  lemma ReplaceLeadingKey(key: string, rest: string)
    requires key != [] && key[0] !in rest
    ensures N.Replace(key + rest, key, "") == rest
  {
    var line := key + rest;
    assert line[..|key|] == key;
    assert line[|key|..] == rest;
    ReplaceAbsent(rest, key, "");
  }

  /** Stripping a blank before some digits leaves the digits. */
  lemma StripBeforeDigits(d: string)
    requires IsDigits(d)
    ensures Strip(" " + d) == d
  {
    var rest := " " + d;
    assert rest[1..] == d;
    assert IsSpaceChar(rest[0]) && !IsSpaceChar(d[0]) && !IsSpaceChar(d[|d| - 1]);
    assert StripLeft(d) == d;
    assert StripLeft(rest) == d;
    StripRightKept(d);
  }

  /** `CONFIDENCE: 85` reads as 85: the key and the blank are removed and the digits parsed. */
  lemma ConfidenceLineRead(n: nat)
    ensures FieldValue(KeyOf(ConfidenceField) + " " + NatToString(n), ConfidenceField) == NatToString(n)
    ensures PyInt(FieldValue(KeyOf(ConfidenceField) + " " + NatToString(n), ConfidenceField)) == Some(n)
  {
    var key := KeyOf(ConfidenceField);
    var d := NatToString(n);
    var rest := " " + d;
    assert 'C' !in rest by {
      assert forall i :: 0 <= i < |d| ==> IsDigitChar(d[i]);
      assert forall i :: 1 <= i < |rest| ==> rest[i] == d[i - 1];
    }
    ReplaceLeadingKey(key, rest);
    assert key + " " + d == key + rest;
    StripBeforeDigits(d);
    PyIntOfString(n);
  }

  // ---------------------------------------------------------------------
  // Mode dispatch
  // ---------------------------------------------------------------------

  /** The classifier's mode: the argument as given, else the environment setting lowercased. */
  function ModeOf(mode: Option<string>, envMode: Option<string>): (m: string)
    ensures mode.Some? ==> m == mode.value
    ensures mode.None? && envMode.None? ==> m == "deterministic"
  {
    if mode.Some? then mode.value
    else if envMode.Some? then Lower(envMode.value)
    else "deterministic"
  }

  /**
   * `classify`. `reply` is the outcome of the model call on the prompt
   * built from the text; in any mode but "llm" no call is made.
   */
  function Classify(
    mode: string, text: string, reply: Outcome<string>,
    matchIntent: string -> Option<string>, academic: (nat, string) -> bool): (r: ClassificationResult)
  {
    if mode == "llm" && reply.Success? then ParsedReply(reply.value)
    else ClassifyDeterministic(text, matchIntent, academic)
  }

  /**
   * Only model mode consults the reply, and a failed call gives exactly
   * the deterministic classification.
   */
  lemma ClassifySpec(
    mode: string, text: string, reply: Outcome<string>,
    matchIntent: string -> Option<string>, academic: (nat, string) -> bool)
    ensures var r := Classify(mode, text, reply, matchIntent, academic);
      (mode != "llm" || reply.Failure? ==> r == ClassifyDeterministic(text, matchIntent, academic))
      && (mode == "llm" && reply.Success? ==> r == ParsedReply(reply.value))
      && (mode != "llm" ==> 0.0 <= r.confidence <= 1.0)
  {
    ClassifyDeterministicSpec(text, matchIntent, academic);
  }
}
