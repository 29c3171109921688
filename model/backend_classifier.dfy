/**
 * The backend's language-model text classifier: a user message (or a
 * preview of it, when large) is sent to the model, the JSON in the reply is
 * extracted and, when it does not parse, repaired; the label and payload
 * are read, the full message is restored into the payload, and the label's
 * handler runs when a job and a session are given. Any failure gives the
 * CONVERSATIONAL fallback.
 *
 * The prompt template and admin policy, the model's `generate`, the JSON
 * parser and the handler controller are parameters (`Env`).
 */
module BackendClassifier {
  import opened Common
  import N = IngestNormalizer
  import R = Refinery

  /** `ClassificationLabel` */
  datatype Label = ResearchSeed | EvidenceInput | Conversational

  /** The label's value string. */
  function LabelName(l: Label): string
  {
    match l
    case ResearchSeed => "RESEARCH_SEED"
    case EvidenceInput => "EVIDENCE_INPUT"
    case Conversational => "CONVERSATIONAL"
  }

  /** `ClassificationLabel(name)`: the label with exactly that value, if any. */
  function ParseLabel(name: string): (r: Option<Label>)
    ensures r.Some? ==> LabelName(r.value) == name
    ensures r.None? ==> forall l: Label :: LabelName(l) != name
  {
    if name == "RESEARCH_SEED" then Some(ResearchSeed)
    else if name == "EVIDENCE_INPUT" then Some(EvidenceInput)
    else if name == "CONVERSATIONAL" then Some(Conversational)
    else None
  }

  /** A JSON value in the payload: a string, null, or anything else shown by its `str()`. */
  datatype Value = Text(s: string) | Null | Other(shown: string)

  /** `str(value)` */
  function Shown(v: Value): string
  {
    match v
    case Text(s) => s
    case Null => "None"
    case Other(shown) => shown
  }

  /** The `payload` member: a JSON object, or some other JSON value. */
  datatype Payload = PayloadDict(fields: map<string, Value>) | PayloadOther

  /** What `json.loads` returns: an object with its `label` and `payload` members, or another value. */
  datatype Parsed = JsonObject(labelMember: Option<Value>, payloadMember: Option<Payload>) | JsonOther

  /** `ClassifierHandlerResult` */
  datatype HandlerResult = HandlerResult(status: string, message: string, actionTaken: string)

  /** `ClassificationResult` */
  datatype ClassificationResult = ClassificationResult(classLabel: Label, payload: map<string, Value>,
                                                       handlerResult: Option<HandlerResult>,
                                                       rawLlmResponse: Option<string>)

  /** The admin-policy values the classifier reads. */
  datatype Policy = Policy(classificationThreshold: int, previewSnippetLength: int, allowedDomains: seq<string>)

  /** What the classifier depends on outside itself. */
  datatype Env = Env(template: Outcome<string>, policy: Policy,
                     generate: string -> Outcome<string>,
                     parse: string -> Option<Parsed>,
                     handler: (Label, nat, map<string, Value>) -> HandlerResult)

  /** The legacy `confidence`: always 1.0. */
  function Confidence(r: ClassificationResult): real { 1.0 }

  /** `is_content_available` */
  predicate IsContentAvailable(r: ClassificationResult)
  {
    r.classLabel == EvidenceInput
  }

  /** `_get_fallback_result` */
  function Fallback(text: string): ClassificationResult
  {
    ClassificationResult(Conversational, map["raw_text" := Text(text)], None, None)
  }

  // ---------------------------------------------------------------------
  // `_wrap_large_text`
  // ---------------------------------------------------------------------

  /** `text[-100:]` */
  function Last100(text: string): (r: string)
    ensures |r| == Min(100, |text|) && r == text[|text| - |r|..]
  {
    if |text| >= 100 then text[|text| - 100..] else text
  }

  /** The preview wrapper around a snippet and a tail. */
  function Wrapper(total: nat, preview: string, tail: string): string
  {
    "[LARGE INPUT PREVIEW]\nTotal characters: " + NatToString(total) + "\nSnippet: " + preview
    + "...\nEnd of input: ..." + tail + "\n[END PREVIEW]"
  }

  /** `_wrap_large_text` */
  function WrapLargeText(text: string, threshold: int, snippetLen: int): string
  {
    if |text| <= threshold then text
    else
      var preview := PyPrefix(text, snippetLen);
      var tail := if |text| > snippetLen + 100 then Last100(text) else "";
      Wrapper(|text|, preview, tail)
  }

  /**
   * A text within the threshold is sent as it is. A longer one becomes the
   * wrapper around its first `snippetLen` characters and, only when it is
   * more than 100 characters longer than the snippet, its last 100; so for
   * a non-negative snippet length the wrapper's size does not grow with the
   * text beyond the digits of its length.
   */
  lemma WrapLargeTextSpec(text: string, threshold: int, snippetLen: int)
    ensures |text| <= threshold ==> WrapLargeText(text, threshold, snippetLen) == text
    ensures |text| > threshold ==>
      var preview := PyPrefix(text, snippetLen);
      var tail := if |text| > snippetLen + 100 then Last100(text) else "";
      WrapLargeText(text, threshold, snippetLen) == Wrapper(|text|, preview, tail)
      && preview == text[..|preview|]
      && (tail != [] ==> |tail| == Min(100, |text|) && tail == text[|text| - |tail|..])
      && (snippetLen >= 0 && tail != [] ==> |tail| == 100)
      && (snippetLen >= 0 ==>
            |WrapLargeText(text, threshold, snippetLen)| <= 85 + |NatToString(|text|)| + snippetLen + 100)
  {
    if |text| > threshold {
      var preview := PyPrefix(text, snippetLen);
      var tail := if |text| > snippetLen + 100 then Last100(text) else "";
      assert |Wrapper(|text|, preview, tail)| == 85 + |NatToString(|text|)| + |preview| + |tail|;
    }
  }

  // ---------------------------------------------------------------------
  // `_extract_json`
  // ---------------------------------------------------------------------

  /** `r` is a contiguous piece of `t`. */
  ghost predicate IsSlice(r: string, t: string)
  {
    exists i, j :: 0 <= i <= j <= |t| && r == t[i..j]
  }

  /** The text after the first occurrence of `sep`. */
  function AfterFirst(t: string, sep: string): (r: string)
    requires Contains(t, sep)
  {
    t[StrFind(t, sep) + |sep|..]
  }

  /** `s.split("```")[0]`: the text before the first fence. */
  function BeforeFence(s: string): (r: string)
  {
    var i := StrFind(s, "```");
    if i == -1 then s else s[..i]
  }

  /**
   * The fenced content: `split("```json")[1].split("```")[0]` or
   * `split("```")[1].split("```")[0]`, stripped. A second "```json" begins
   * with a fence, so the first cut is the text after the opening marker up
   * to the next fence.
   */
  function Fenced(t: string): Option<string>
  {
    if Contains(t, "```json") then Some(Strip(BeforeFence(AfterFirst(t, "```json"))))
    else if Contains(t, "```") then Some(Strip(BeforeFence(AfterFirst(t, "```"))))
    else None
  }

  /** `_extract_json` */
  function ExtractJson(text: string): (r: string)
  {
    var t := Strip(text);
    var fenced := Fenced(t);
    if fenced.Some? && fenced.value != [] then fenced.value
    else
      var start := StrFind(t, "{");
      var end := R.RFind(t, "}", |t|);
      if start != -1 && end != -1 then (if start <= end then t[start..end + 1] else [])
      else t
  }

  /** `strip()` keeps a contiguous piece. */
  lemma StripSlice(s: string)
    ensures IsSlice(Strip(s), s)
  {
    var l := StripLeft(s);
    var r := StripRight(l);
    var a := |s| - |l|;
    assert l == s[a..];
    assert r == l[..|r|];
    SliceOfSuffix(s, a, |r|);
  }

  lemma SliceOfSuffix(s: string, a: nat, k: nat)
    requires a + k <= |s|
    ensures s[a..][..k] == s[a..a + k]
  {
  }

  /** A piece of a piece is a piece. */
  lemma SliceTrans(r: string, m: string, t: string)
    requires IsSlice(r, m) && IsSlice(m, t)
    ensures IsSlice(r, t)
  {
    var i, j :| 0 <= i <= j <= |m| && r == m[i..j];
    var k, l :| 0 <= k <= l <= |t| && m == t[k..l];
    assert |r| == j - i;
    forall x | 0 <= x < |r|
      ensures r[x] == t[k + i + x]
    {
      assert r[x] == m[i + x];
    }
    assert r == t[k + i..k + j];
  }

  /** The fenced content is a piece of the text. */
  lemma FencedSlice(t: string)
    requires Fenced(t).Some?
    ensures IsSlice(Fenced(t).value, t)
  {
    var sep := if Contains(t, "```json") then "```json" else "```";
    var after := AfterFirst(t, sep);
    var before := BeforeFence(after);
    assert IsSlice(after, t) by {
      assert after == t[StrFind(t, sep) + |sep|..|t|];
    }
    assert IsSlice(before, after) by {
      assert before == after[0..|before|];
    }
    SliceTrans(before, after, t);
    StripSlice(before);
    SliceTrans(Strip(before), before, t);
  }

  /**
   * The extracted JSON is a contiguous piece of the stripped reply: the
   * fenced content when there is some, else the span from the first "{" to
   * the last "}" (empty when the last "}" comes first), else the whole
   * stripped reply.
   */
  lemma ExtractJsonSpec(text: string)
    ensures IsSlice(ExtractJson(text), Strip(text))
    ensures var t := Strip(text);
      Fenced(t).Some? && Fenced(t).value != [] ==> ExtractJson(text) == Fenced(t).value
    ensures var t := Strip(text);
      (Fenced(t).None? || Fenced(t).value == []) && Contains(t, "{") && Contains(t, "}")
      && StrFind(t, "{") <= R.RFind(t, "}", |t|) ==>
        var r := ExtractJson(text);
        r != [] && r[0] == '{' && r[|r| - 1] == '}'
    ensures var t := Strip(text);
      (Fenced(t).None? || Fenced(t).value == []) && !(Contains(t, "{") && Contains(t, "}")) ==>
        ExtractJson(text) == t
  {
    var t := Strip(text);
    var r := ExtractJson(text);
    if Fenced(t).Some? && Fenced(t).value != [] {
      FencedSlice(t);
    } else {
      var start := StrFind(t, "{");
      var end := R.RFind(t, "}", |t|);
      if start != -1 && end != -1 {
        if start <= end {
          assert r == t[start..end + 1];
          assert t[start..start + 1] == "{";
          assert t[end..end + 1] == "}";
        } else {
          assert r == t[0..0];
        }
      } else {
        assert end == -1 ==> !Contains(t, "}");
        assert r == t[0..|t|];
      }
    }
  }

  // ---------------------------------------------------------------------
  // `_repair_json`
  // ---------------------------------------------------------------------

  /** `\w` (ASCII part). */
  predicate IsWordChar(c: char) { IsAlnumChar(c) || c == '_' }

  /** `[{,\s]` */
  predicate IsKeyMarker(c: char) { c == '{' || c == ',' || IsSpaceChar(c) }

  /** The length of the run of word characters at the start. */
  function WordLen(s: string): (n: nat)
    ensures n <= |s| && (forall i :: 0 <= i < n ==> IsWordChar(s[i])) && (n < |s| ==> !IsWordChar(s[n]))
  {
    if s != [] && IsWordChar(s[0]) then 1 + WordLen(s[1..]) else 0
  }

  /** The length of the run of whitespace at the start. */
  function SpaceLen(s: string): (n: nat)
    ensures n <= |s| && (forall i :: 0 <= i < n ==> IsSpaceChar(s[i])) && (n < |s| ==> !IsSpaceChar(s[n]))
  {
    if s != [] && IsSpaceChar(s[0]) then 1 + SpaceLen(s[1..]) else 0
  }

  /**
   * `re.sub(r'([{,\s])(\w+)(\s*:)', r'\1"\2"\3', s)`: left to right, a
   * marker followed by a word and a colon (with optional whitespace before
   * it) gets the word quoted, and the scan resumes after the colon. A
   * shorter word or fewer spaces cannot be followed by the colon, so the
   * greedy runs decide the match.
   */
  function QuoteKeys(s: string): (r: string)
    decreases |s|
  {
    if s == [] then []
    else
      var step := KeyStep(s);
      step.1 + QuoteKeys(s[step.0..])
  }

  /** One step of the scan: how much of the text it consumes and what it writes for that. */
  function KeyStep(s: string): (r: (nat, string))
    requires s != []
    ensures 1 <= r.0 <= |s|
  {
    var w := WordLen(s[1..]);
    var c := 1 + w + SpaceLen(s[1 + w..]);
    if IsKeyMarker(s[0]) && w > 0 && c < |s| && s[c] == ':' then (c + 1, QuotedKey(s[0], s[1..1 + w], s[1 + w..c + 1]))
    else (1, [s[0]])
  }

  /** The replacement `\1"\2"\3`: the marker, the word in double quotes, and the gap up to the colon. */
  function QuotedKey(marker: char, word: string, gap: string): string
  {
    [marker] + ("\"" + (word + ("\"" + gap)))
  }

  /**
   * `re.sub(r',\s*([}\]])', r'\1', s)`: left to right, a comma followed by
   * optional whitespace and a closing brace or bracket is replaced by the
   * closer.
   */
  function DropTrailingCommas(s: string): (r: string)
    decreases |s|
  {
    if s == [] then []
    else
      var step := CommaStep(s);
      step.1 + DropTrailingCommas(s[step.0..])
  }

  /** One step of the scan: how much of the text it consumes and what it writes for that. */
  function CommaStep(s: string): (r: (nat, string))
    requires s != []
    ensures 1 <= r.0 <= |s| && |r.1| <= r.0
  {
    var sp := SpaceLen(s[1..]);
    if s[0] == ',' && 1 + sp < |s| && (s[1 + sp] == '}' || s[1 + sp] == ']') then (2 + sp, [s[1 + sp]])
    else (1, [s[0]])
  }

  /** Step 0: a text mentioning "label" without a leading "{" is stripped and wrapped in braces. */
  function Braced(text: string): string
  {
    if Contains(text, "label") && !StartsWith(Strip(text), "{") then "{" + Strip(text) + "}" else text
  }

  /** `_repair_json` */
  function RepairJson(text: string): string
  {
    if text == [] then text else DropTrailingCommas(QuoteKeys(Braced(text)))
  }

  /** The whitespace characters. */
  const SpaceChars: set<char> := {' ', '\t', '\n', '\r', '\U{B}', '\U{C}', '\U{1C}', '\U{1D}', '\U{1E}', '\U{1F}'}

  /** Commas and whitespace. */
  const CommaSpace: set<char> := {','} + SpaceChars

  /** `s` with every character of `cs` removed. */
  function Without(s: string, cs: set<char>): (r: string)
    ensures |r| <= |s|
  {
    if s == [] then [] else (if s[0] in cs then [] else [s[0]]) + Without(s[1..], cs)
  }

  lemma {:induction false} WithoutAppend(a: string, b: string, cs: set<char>)
    ensures Without(a + b, cs) == Without(a, cs) + Without(b, cs)
  {
    if a == [] {
      assert a + b == b;
    } else {
      var head := if a[0] in cs then [] else [a[0]];
      assert (a + b)[0] == a[0];
      assert (a + b)[1..] == a[1..] + b;
      WithoutAppend(a[1..], b, cs);
      calc {
        Without(a + b, cs);
        head + Without(a[1..] + b, cs);
        head + (Without(a[1..], cs) + Without(b, cs));
        (head + Without(a[1..], cs)) + Without(b, cs);
        Without(a, cs) + Without(b, cs);
      }
    }
  }

  lemma {:induction false} WithoutAll(s: string, cs: set<char>)
    requires forall i :: 0 <= i < |s| ==> s[i] in cs
    ensures Without(s, cs) == []
  {
    if s != [] {
      WithoutAll(s[1..], cs);
    }
  }

  /** Output written piece by piece, each matching its input piece up to `cs`, matches the whole input. */
  lemma WithoutSplit(s: string, n: nat, out: string, restOut: string, cs: set<char>)
    requires n <= |s|
    requires Without(out, cs) == Without(s[..n], cs) && Without(restOut, cs) == Without(s[n..], cs)
    ensures Without(out + restOut, cs) == Without(s, cs)
  {
    assert s == s[..n] + s[n..];
    WithoutAppend(s[..n], s[n..], cs);
    WithoutAppend(out, restOut, cs);
  }

  /** Removing two sets one after the other removes their union. */
  lemma {:induction false} WithoutTwice(s: string, a: set<char>, b: set<char>)
    ensures Without(Without(s, a), b) == Without(s, a + b)
  {
    if s != [] {
      WithoutTwice(s[1..], a, b);
      var head := if s[0] in a then [] else [s[0]];
      WithoutAppend(head, Without(s[1..], a), b);
      if s[0] !in a {
        assert Without(head, b) == (if s[0] in b then [] else [s[0]]) + Without([], b);
      }
    }
  }

  /** A prefix cut into its first character and two pieces. */
  lemma Pieces(s: string, i: nat, j: nat)
    requires 1 <= i <= j <= |s|
    ensures s[..j] == [s[0]] + s[1..i] + s[i..j]
  {
    assert s[..j] == s[..1] + s[1..j];
    assert s[1..j] == s[1..i] + s[i..j];
  }

  /** A quoted key without its quotes is the matched text. */
  lemma QuotedKeyUnquoted(marker: char, word: string, gap: string)
    ensures Without(QuotedKey(marker, word, gap), {'"'}) == Without([marker] + word + gap, {'"'})
  {
    var q := {'"'};
    var tail := word + ("\"" + gap);
    QuoteDropped(gap);
    WithoutAppend(word, "\"" + gap, q);
    QuoteDropped(tail);
    WithoutAppend([marker], "\"" + tail, q);
    WithoutAppend(word, gap, q);
    WithoutAppend([marker], word + gap, q);
    assert [marker] + word + gap == [marker] + (word + gap);
  }

  /** A leading double quote is dropped. */
  lemma QuoteDropped(x: string)
    ensures Without("\"" + x, {'"'}) == Without(x, {'"'})
  {
    assert ("\"" + x)[1..] == x;
  }

  /** One step writes the consumed text, up to double quotes. */
  lemma KeyStepUnquoted(s: string)
    requires s != []
    ensures Without(KeyStep(s).1, {'"'}) == Without(s[..KeyStep(s).0], {'"'})
  {
    var w := WordLen(s[1..]);
    var c := 1 + w + SpaceLen(s[1 + w..]);
    if IsKeyMarker(s[0]) && w > 0 && c < |s| && s[c] == ':' {
      QuotedKeyUnquoted(s[0], s[1..1 + w], s[1 + w..c + 1]);
      Pieces(s, 1 + w, c + 1);
    } else {
      assert s[..1] == [s[0]];
    }
  }

  /** Quoting keys only inserts double quotes: without them the text is unchanged. */
  lemma {:induction false} QuoteKeysOnlyQuotes(s: string)
    ensures Without(QuoteKeys(s), {'"'}) == Without(s, {'"'})
    decreases |s|
  {
    if s != [] {
      var step := KeyStep(s);
      QuoteKeysOnlyQuotes(s[step.0..]);
      KeyStepUnquoted(s);
      WithoutSplit(s, step.0, step.1, QuoteKeys(s[step.0..]), {'"'});
    }
  }

  /** A text without a colon has no key to quote. */
  lemma {:induction false} QuoteKeysNoColon(s: string)
    requires ':' !in s
    ensures QuoteKeys(s) == s
    decreases |s|
  {
    if s != [] {
      assert KeyStep(s) == (1, [s[0]]);
      QuoteKeysNoColon(s[1..]);
    }
  }

  /** One step writes the consumed text, up to commas and whitespace. */
  lemma CommaStepSkeleton(s: string)
    requires s != []
    ensures Without(CommaStep(s).1, CommaSpace) == Without(s[..CommaStep(s).0], CommaSpace)
  {
    var cs := CommaSpace;
    var sp := SpaceLen(s[1..]);
    if s[0] == ',' && 1 + sp < |s| && (s[1 + sp] == '}' || s[1 + sp] == ']') {
      CommaGapVanishes(s, sp);
      assert s[..2 + sp] == s[..1 + sp] + [s[1 + sp]];
      WithoutAppend(s[..1 + sp], [s[1 + sp]], cs);
    } else {
      assert s[..1] == [s[0]];
    }
  }

  /** A comma and the whitespace after it vanish from the skeleton. */
  lemma CommaGapVanishes(s: string, sp: nat)
    requires s != [] && s[0] == ',' && sp == SpaceLen(s[1..])
    ensures Without(s[..1 + sp], CommaSpace) == []
  {
    var gap := s[..1 + sp];
    forall i | 0 <= i < |gap|
      ensures gap[i] in CommaSpace
    {
      if i > 0 {
        assert gap[i] == s[1..][i - 1];
      }
    }
    WithoutAll(gap, CommaSpace);
  }

  /** Dropping trailing commas only removes commas and whitespace. */
  lemma {:induction false} DropTrailingCommasSkeleton(s: string)
    ensures Without(DropTrailingCommas(s), CommaSpace) == Without(s, CommaSpace)
    ensures |DropTrailingCommas(s)| <= |s|
    decreases |s|
  {
    var cs := CommaSpace;
    if s != [] {
      var step := CommaStep(s);
      DropTrailingCommasSkeleton(s[step.0..]);
      CommaStepSkeleton(s);
      WithoutSplit(s, step.0, step.1, DropTrailingCommas(s[step.0..]), cs);
    }
  }

  /** A text without commas is left as it is. */
  lemma {:induction false} DropTrailingCommasNoComma(s: string)
    requires ',' !in s
    ensures DropTrailingCommas(s) == s
    decreases |s|
  {
    if s != [] {
      assert CommaStep(s) == (1, [s[0]]);
      DropTrailingCommasNoComma(s[1..]);
    }
  }

  /**
   * Repair leaves an empty text alone; otherwise, apart from double quotes,
   * commas and whitespace, the repaired text is the (possibly braced) input.
   */
  lemma RepairJsonSpec(text: string)
    ensures text == [] ==> RepairJson(text) == []
    ensures text != [] ==>
      var core := {'"', ','} + SpaceChars;
      Without(RepairJson(text), core) == Without(Braced(text), core)
  {
    if text != [] {
      var b := Braced(text);
      var q := QuoteKeys(b);
      var cs := CommaSpace;
      var core := {'"', ','} + SpaceChars;
      assert {'"'} + cs == core;
      DropTrailingCommasSkeleton(q);
      QuoteKeysOnlyQuotes(b);
      WithoutTwice(DropTrailingCommas(q), cs, {'"'});
      WithoutTwice(q, cs, {'"'});
      WithoutTwice(q, {'"'}, cs);
      WithoutTwice(b, {'"'}, cs);
      assert cs + {'"'} == {'"'} + cs;
    }
  }

  // ---------------------------------------------------------------------
  // `classify`
  // ---------------------------------------------------------------------

  /** The domain hints: each allowed domain quoted, joined by " | ", then " | null". */
  function DomainHints(domains: seq<string>): string
  {
    Join(Quoted(domains), " | ") + " | null"
  }

  function Quoted(ds: seq<string>): (r: seq<string>)
    ensures |r| == |ds|
  {
    if ds == [] then [] else ["\"" + ds[0] + "\""] + Quoted(ds[1..])
  }

  /** The prompt: the template with the (wrapped) text and then the domain hints filled in. */
  function Prompt(template: string, text: string, policy: Policy): string
  {
    var wrapped := WrapLargeText(text, policy.classificationThreshold, policy.previewSnippetLength);
    N.Replace(N.Replace(template, "{text}", wrapped), "{allowed_domains}", DomainHints(policy.allowedDomains))
  }

  /** The payload keeps its `raw_text` only when it is present, not null and at least as long as the message. */
  function RestoreRawText(fields: map<string, Value>, text: string): (r: map<string, Value>)
    ensures "raw_text" in r && r["raw_text"] != Null && |Shown(r["raw_text"])| >= |text|
    ensures r.Keys == fields.Keys + {"raw_text"}
    ensures forall k :: k in fields && k != "raw_text" ==> r[k] == fields[k]
    ensures "raw_text" in fields && fields["raw_text"] != Null && |Shown(fields["raw_text"])| >= |text|
      ==> r == fields
  {
    if "raw_text" !in fields || fields["raw_text"] == Null || |Shown(fields["raw_text"])| < |text| then
      fields["raw_text" := Text(text)]
    else fields
  }

  /** Reading the parsed reply: the label and the restored payload, or a failure. */
  function Interpret(p: Parsed, text: string): (r: Outcome<(Label, map<string, Value>)>)
    ensures r.Success? ==>
      "raw_text" in r.value.1 && r.value.1["raw_text"] != Null && |Shown(r.value.1["raw_text"])| >= |text|
  {
    match p
    case JsonOther => Failure("reply is not a JSON object")
    case JsonObject(labelMember, payloadMember) =>
      var name :=
        match labelMember
        case None => Success("CONVERSATIONAL")
        case Some(Text(s)) => Success(Upper(s))
        case Some(_) => Failure("label is not a string");
      var fields :=
        match payloadMember
        case None => Success(map[])
        case Some(PayloadDict(f)) => Success(f)
        case Some(PayloadOther) => Failure("payload is not an object");
      if name.Failure? then Failure(name.error)
      else if fields.Failure? then Failure(fields.error)
      else
        var restored := RestoreRawText(fields.value, text);
        match ParseLabel(name.value)
        case None => Failure("Invalid label")
        case Some(l) => Success((l, restored))
  }

  /** The model call and the parsing: the label, payload and stripped reply, or a failure. */
  function LlmStage(text: string, env: Env): (r: Outcome<(Label, map<string, Value>, string)>)
    ensures r.Success? ==>
      "raw_text" in r.value.1 && r.value.1["raw_text"] != Null && |Shown(r.value.1["raw_text"])| >= |text|
  {
    match env.template
    case Failure(e) => Failure(e)
    case Success(template) =>
      match env.generate(Prompt(template, text, env.policy))
      case Failure(e) => Failure(e)
      case Success(reply) =>
        var response := Strip(reply);
        var cleaned := ExtractJson(response);
        var parsed := if env.parse(cleaned).Some? then env.parse(cleaned) else env.parse(RepairJson(cleaned));
        if parsed.None? then Failure("JSON could not be parsed")
        else
          match Interpret(parsed.value, text)
          case Failure(e) => Failure(e)
          case Success((l, payload)) => Success((l, payload, response))
  }

  /** `classify` */
  function Classify(text: string, jobId: Option<nat>, hasSession: bool, env: Env): ClassificationResult
  {
    if IsBlank(text) then Fallback(text)
    else
      match LlmStage(text, env)
      case Failure(_) => Fallback(text)
      case Success((l, payload, response)) =>
        var handled := if jobId.Some? && hasSession then Some(env.handler(l, jobId.value, payload)) else None;
        ClassificationResult(l, payload, handled, Some(response))
  }

  /**
   * A blank message gets the fallback. Every result carries a non-null
   * `raw_text` at least as long as the message; the handler has run only
   * with a job and a session and only on a model answer, and always then;
   * and a label other than CONVERSATIONAL comes from the model.
   */
  lemma ClassifySpec(text: string, jobId: Option<nat>, hasSession: bool, env: Env)
    ensures IsBlank(text) ==> Classify(text, jobId, hasSession, env) == Fallback(text)
    ensures var r := Classify(text, jobId, hasSession, env);
      "raw_text" in r.payload && r.payload["raw_text"] != Null && |Shown(r.payload["raw_text"])| >= |text|
    ensures var r := Classify(text, jobId, hasSession, env);
      r.handlerResult.Some? <==> jobId.Some? && hasSession && r.rawLlmResponse.Some?
    ensures var r := Classify(text, jobId, hasSession, env);
      r.classLabel != Conversational ==> r.rawLlmResponse.Some?
  {
  }

  /**
   * Reading a parsed object: a missing label means CONVERSATIONAL; a
   * string label is taken upper-cased and must name a label exactly, else
   * the result is a failure (and so the fallback); a label that is not a
   * string, a payload that is not an object, or a reply that is not an
   * object fail too.
   */
  lemma InterpretSpec(p: Parsed, text: string)
    ensures p.JsonOther? ==> Interpret(p, text).Failure?
    ensures p.JsonObject? && p.payloadMember.Some? && p.payloadMember.value.PayloadOther? ==> Interpret(p, text).Failure?
    ensures p.JsonObject? && p.labelMember.Some? && !p.labelMember.value.Text? ==> Interpret(p, text).Failure?
    ensures p.JsonObject? && p.labelMember.None? && (p.payloadMember.None? || p.payloadMember.value.PayloadDict?) ==>
      Interpret(p, text).Success? && Interpret(p, text).value.0 == Conversational
    ensures p.JsonObject? && p.labelMember.Some? && p.labelMember.value.Text? && (p.payloadMember.None? || p.payloadMember.value.PayloadDict?) ==>
      (Interpret(p, text).Success? <==> ParseLabel(Upper(p.labelMember.value.s)).Some?)
      && (Interpret(p, text).Success? ==> LabelName(Interpret(p, text).value.0) == Upper(p.labelMember.value.s))
    ensures Interpret(p, text).Success? ==>
      var payload := Interpret(p, text).value.1;
      "raw_text" in payload && payload["raw_text"] != Null && |Shown(payload["raw_text"])| >= |text|
  {
  }
}
