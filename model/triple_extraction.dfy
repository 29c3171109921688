/**
 * The triple extractor of the backend: the language model answers with one
 * `subject | predicate | object` triple per line; commentary above the first
 * and below the last triple-like line is cut off, every remaining line is
 * parsed on its own, and a bad line is dropped rather than failing the
 * block. The model's answer is a parameter.
 */
module TripleExtraction {
  import opened Common
  import N = IngestNormalizer

  /** `{"subject": ..., "predicate": ..., "object": ...}` */
  datatype Triple = Triple(subject: string, pred: string, obj: string)

  /** `MAX_FIELD_LEN` */
  const MaxFieldLen: nat := 300

  /** `TRIPLE_EXTRACTION_FALLBACK`, the template used when no prompt file is found. */
  const FallbackTemplate: string := "{block_text}"

  /** `_build_prompt`: every `{block_text}` placeholder is replaced by the block. */
  function BuildPrompt(template: string, blockText: string): string
  {
    N.Replace(template, "{block_text}", blockText)
  }

  /** With the fallback template the prompt is the block itself. */
  lemma FallbackPromptIsBlock(blockText: string)
    ensures BuildPrompt(FallbackTemplate, blockText) == blockText
  {
    assert FallbackTemplate[..|"{block_text}"|] == "{block_text}";
    assert FallbackTemplate[|"{block_text}"|..] == [];
  }

  // ---------------------------------------------------------------------
  // Lines
  // ---------------------------------------------------------------------

  /** `_is_triple_line`: exactly two pipe characters. */
  predicate IsTripleLine(line: string)
  {
    CountChar(line, '|') == 2
  }

  /** The index of the first triple-like line. */
  function FirstTriple(lines: seq<string>): (i: nat)
    requires exists j :: 0 <= j < |lines| && IsTripleLine(lines[j])
    ensures i < |lines| && IsTripleLine(lines[i])
    ensures forall j :: 0 <= j < i ==> !IsTripleLine(lines[j])
  {
    if IsTripleLine(lines[0]) then 0
    else
      var j :| 0 <= j < |lines| && IsTripleLine(lines[j]);
      assert IsTripleLine(lines[1..][j - 1]);
      1 + FirstTriple(lines[1..])
  }

  /** The index of the last triple-like line. */
  function LastTriple(lines: seq<string>): (i: nat)
    requires exists j :: 0 <= j < |lines| && IsTripleLine(lines[j])
    ensures i < |lines| && IsTripleLine(lines[i])
    ensures forall j :: i < j < |lines| ==> !IsTripleLine(lines[j])
  {
    if IsTripleLine(lines[|lines| - 1]) then |lines| - 1
    else
      var j :| 0 <= j < |lines| && IsTripleLine(lines[j]);
      assert IsTripleLine(lines[..|lines| - 1][j]);
      LastTriple(lines[..|lines| - 1])
  }

  /**
   * `_trim_comment_noise`: no line when none is triple-like; otherwise the
   * contiguous run from the first to the last triple-like line, so that only
   * lines that are not triple-like are cut off on either side.
   */
  function TrimCommentNoise(lines: seq<string>): (r: seq<string>)
    ensures r == [] <==> forall j :: 0 <= j < |lines| ==> !IsTripleLine(lines[j])
    ensures r != [] ==> IsTripleLine(r[0]) && IsTripleLine(r[|r| - 1])
    ensures r != [] ==> exists a :: NoiseAround(lines, r, a)
  {
    if forall j :: 0 <= j < |lines| ==> !IsTripleLine(lines[j]) then []
    else
      var first := FirstTriple(lines);
      var last := LastTriple(lines);
      assert first <= last;
      var r := lines[first..last + 1];
      assert NoiseAround(lines, r, first);
      r
  }

  /** `r` is the run of `lines` from index `a`, and no line outside it is triple-like. */
  predicate NoiseAround(lines: seq<string>, r: seq<string>, a: int)
  {
    0 <= a && a + |r| <= |lines| && r == lines[a..a + |r|]
    && (forall j :: 0 <= j < a ==> !IsTripleLine(lines[j]))
    && (forall j :: a + |r| <= j < |lines| ==> !IsTripleLine(lines[j]))
  }

  // ---------------------------------------------------------------------
  // One line
  // ---------------------------------------------------------------------

  /** A field as the parser accepts it. */
  predicate ValidField(v: string)
  {
    v != [] && Strip(v) == v && '|' !in v && '\n' !in v && |v| <= MaxFieldLen
  }

  predicate ValidTriple(t: Triple)
  {
    ValidField(t.subject) && ValidField(t.pred) && ValidField(t.obj)
  }

  /** A field cut from a line: stripped, then checked. */
  function Field(part: string): (r: Option<string>)
    requires '|' !in part
    ensures r.Some? ==> ValidField(r.value)
  {
    var v := Strip(part);
    if v == [] || '\n' in v || |v| > MaxFieldLen then None
    else
      StripOf(part);
      Some(v)
  }

  /** `strip()` yields a trimmed piece of the string. */
  lemma StripOf(s: string)
    ensures Strip(Strip(s)) == Strip(s)
    ensures forall c :: c in Strip(s) ==> c in s
  {
    var v := Strip(s);
    StripTrimmed(v);
    N.StripSub(s);
  }

  /** `_parse_line` */
  function ParseLine(line: string): (r: Option<Triple>)
    ensures r.Some? ==> ValidTriple(r.value) && IsTripleLine(line)
  {
    var parts := N.SplitOn(line, '|');
    SplitOnCount(line, '|');
    if |parts| != 3 then None
    else
      var s, p, o := Field(parts[0]), Field(parts[1]), Field(parts[2]);
      if s.None? || p.None? || o.None? then None
      else Some(Triple(s.value, p.value, o.value))
  }

  /** `split` gives one more piece than there are separators. */
  lemma {:induction false} SplitOnCount(s: string, c: char)
    ensures |N.SplitOn(s, c)| == CountChar(s, c) + 1
    decreases |s|
  {
    if s != [] {
      SplitOnCount(s[1..], c);
    }
  }

  /** The line a triple is written as. */
  function Render(t: Triple): string
  {
    t.subject + " | " + t.pred + " | " + t.obj
  }

  /** A piece without the separator, then the separator, starts a split. */
  lemma {:induction false} SplitOnPiece(a: string, rest: string, c: char)
    requires c !in a
    ensures N.SplitOn(a + [c] + rest, c) == [a] + N.SplitOn(rest, c)
    decreases |a|
  {
    var s := a + [c] + rest;
    if a == [] {
      assert s[1..] == rest;
    } else {
      assert s[1..] == a[1..] + [c] + rest;
      SplitOnPiece(a[1..], rest, c);
      assert [a[0]] + a[1..] == a;
    }
  }

  /** A piece without the separator is the whole split. */
  lemma {:induction false} SplitOnNone(a: string, c: char)
    requires c !in a
    ensures N.SplitOn(a, c) == [a]
    decreases |a|
  {
    if a != [] {
      SplitOnNone(a[1..], c);
      assert [a[0]] + a[1..] == a;
    }
  }

  /** Surrounding a trimmed field with single spaces does not change its strip. */
  lemma StripPadded(v: string)
    requires v != [] && Strip(v) == v
    ensures Strip(v + " ") == v && Strip(" " + v + " ") == v && Strip(" " + v) == v
  {
    var w := v + " ";
    assert !IsSpaceChar(v[0]) && !IsSpaceChar(v[|v| - 1]);
    assert StripLeft(w) == w;
    assert w[..|w| - 1] == v;
    assert (" " + v + " ")[1..] == w;
    assert (" " + v)[1..] == v;
  }

  /** Writing a valid triple as a line and parsing the line gives it back. */
  lemma ParseRender(t: Triple)
    requires ValidTriple(t)
    ensures ParseLine(Render(t)) == Some(t)
  {
    RenderSplit(t);
    FieldPadded(t.subject);
    FieldPadded(t.pred);
    FieldPadded(t.obj);
  }

  /** The line of a triple splits into its three padded fields. */
  lemma RenderSplit(t: Triple)
    requires ValidTriple(t)
    ensures N.SplitOn(Render(t), '|') == [t.subject + " ", " " + t.pred + " ", " " + t.obj]
  {
    var x, y, z := t.subject + " ", " " + t.pred + " ", " " + t.obj;
    RenderPieces(t.subject, t.pred, t.obj);
    SplitOnNone(z, '|');
    SplitOnPiece(y, z, '|');
    SplitOnPiece(x, y + ['|'] + z, '|');
  }

  lemma RenderPieces(a: string, b: string, c: string)
    ensures a + " | " + b + " | " + c == (a + " ") + ['|'] + ((" " + b + " ") + ['|'] + (" " + c))
  {
  }

  /** A valid field with the padding `Render` gives it reads back as itself. */
  lemma FieldPadded(v: string)
    requires ValidField(v)
    ensures Field(v + " ") == Some(v) && Field(" " + v + " ") == Some(v) && Field(" " + v) == Some(v)
  {
    StripPadded(v);
  }

  // ---------------------------------------------------------------------
  // The whole answer
  // ---------------------------------------------------------------------

  /** The candidate lines of an answer: stripped, non-blank, noise trimmed. */
  function Candidates(raw: string): seq<string>
  {
    TrimCommentNoise(N.StrippedLines(N.SplitOn(Strip(raw), '\n')))
  }

  /** The triple one line contributes: its parse, if it parses. */
  function KeptOne(line: string): (r: seq<Triple>)
    ensures |r| <= 1
    ensures forall k :: 0 <= k < |r| ==> ValidTriple(r[k]) && ParseLine(line) == Some(r[k])
  {
    var t := ParseLine(line);
    if t.Some? then [t.value] else []
  }

  /** The triples of the lines that parse, in order. */
  function Kept(lines: seq<string>): (r: seq<Triple>)
    ensures |r| <= |lines|
  {
    if lines == [] then [] else Kept(lines[..|lines| - 1]) + KeptOne(lines[|lines| - 1])
  }

  predicate AllValid(ts: seq<Triple>)
  {
    forall k :: 0 <= k < |ts| ==> ValidTriple(ts[k])
  }

  /**
   * Partial recovery: every kept triple is valid and parsed from a line, and
   * every line that parses contributes its triple.
   */
  lemma KeptSpec(lines: seq<string>)
    ensures AllValid(Kept(lines))
    ensures forall t :: t in Kept(lines) ==> exists l :: l in lines && ParseLine(l) == Some(t)
    ensures forall l :: l in lines && ParseLine(l).Some? ==> ParseLine(l).value in Kept(lines)
  {
    KeptValid(lines);
    KeptSound(lines);
    KeptComplete(lines);
  }

  lemma {:induction false} KeptValid(lines: seq<string>)
    ensures AllValid(Kept(lines))
  {
    if lines != [] {
      var init := lines[..|lines| - 1];
      KeptValid(init);
      var extra := KeptOne(lines[|lines| - 1]);
      forall k | 0 <= k < |Kept(lines)|
        ensures ValidTriple(Kept(lines)[k])
      {
        if k >= |Kept(init)| {
          assert Kept(lines)[k] == extra[k - |Kept(init)|];
        }
      }
    }
  }

  lemma {:induction false} KeptSound(lines: seq<string>)
    ensures forall t :: t in Kept(lines) ==> exists l :: l in lines && ParseLine(l) == Some(t)
  {
    if lines != [] {
      var init, l := lines[..|lines| - 1], lines[|lines| - 1];
      KeptSound(init);
      var extra := KeptOne(l);
      forall t | t in Kept(lines)
        ensures exists l' :: l' in lines && ParseLine(l') == Some(t)
      {
        InConcat(Kept(init), extra, t);
        if t in Kept(init) {
          var l' :| l' in init && ParseLine(l') == Some(t);
          InSnoc(lines, l');
        } else {
          assert t == extra[0];
          InSnoc(lines, l);
        }
      }
    }
  }

  lemma {:induction false} KeptComplete(lines: seq<string>)
    ensures forall l :: l in lines && ParseLine(l).Some? ==> ParseLine(l).value in Kept(lines)
  {
    if lines != [] {
      var init, l := lines[..|lines| - 1], lines[|lines| - 1];
      KeptComplete(init);
      var extra := KeptOne(l);
      forall l' | l' in lines && ParseLine(l').Some?
        ensures ParseLine(l').value in Kept(lines)
      {
        InSnoc(lines, l');
        InConcat(Kept(init), extra, ParseLine(l').value);
      }
    }
  }

  /** One more line of a prefix adds what that line contributes. */
  lemma KeptPrefix(lines: seq<string>, i: nat)
    requires i < |lines|
    ensures Kept(lines[..i + 1]) == Kept(lines[..i]) + KeptOne(lines[i])
  {
    assert lines[..i + 1][..i] == lines[..i];
  }

  /** The triples an answer yields. */
  function ParsedTriples(raw: string): seq<Triple>
  {
    Kept(Candidates(raw))
  }

  /** One turn of the parsing loop: keep the line's triple or count it as dropped. */
  method ParseStep(triples: seq<Triple>, dropped: nat, line: string) returns (triples': seq<Triple>, dropped': nat)
    ensures triples' == triples + KeptOne(line)
    ensures |triples'| + dropped' == |triples| + dropped + 1
  {
    var t := ParseLine(line);
    if t.Some? {
      triples', dropped' := triples + [t.value], dropped;
    } else {
      triples', dropped' := triples, dropped + 1;
    }
  }

  /** `_parse_response`: the parsed triples and the number of dropped lines. */
  method ParseResponse(raw: string) returns (triples: seq<Triple>, dropped: nat)
    ensures triples == ParsedTriples(raw)
    ensures |triples| + dropped == |Candidates(raw)|
  {
    triples, dropped := ParseLines(Candidates(raw));
  }

  /** The loop of `_parse_response` over the candidate lines. */
  method ParseLines(lines: seq<string>) returns (triples: seq<Triple>, dropped: nat)
    ensures triples == Kept(lines)
    ensures |triples| + dropped == |lines|
  {
    triples, dropped := [], 0;
    var i := 0;
    while i < |lines|
      invariant 0 <= i <= |lines|
      invariant triples == Kept(lines[..i])
      invariant |triples| + dropped == i
    {
      triples, dropped := ParseStep(triples, dropped, lines[i]);
      KeptPrefix(lines, i);
      i := i + 1;
    }
    assert lines[..i] == lines;
  }

  /** What `extract` returns, given the model's answer (`None` when the call raised). */
  function ExtractSpec(blockText: string, raw: Option<string>): (r: Option<seq<Triple>>)
    ensures r.Some? ==> r.value != [] && AllValid(r.value)
    ensures r.Some? ==> raw.Some? && r.value == ParsedTriples(raw.value)
    ensures IsBlank(blockText) ==> r.None?
  {
    if IsBlank(blockText) then None
    else if raw.None? || IsBlank(raw.value) then None
    else
      var triples := ParsedTriples(raw.value);
      KeptSpec(Candidates(raw.value));
      if triples == [] then None else Some(triples)
  }

  /** `extract` */
  method Extract(blockText: string, raw: Option<string>) returns (r: Option<seq<Triple>>)
    ensures r == ExtractSpec(blockText, raw)
  {
    if IsBlank(blockText) {
      return None;
    }
    if raw.None? || IsBlank(raw.value) {
      return None;
    }
    var triples, _ := ParseResponse(raw.value);
    if triples == [] {
      return None;
    }
    return Some(triples);
  }

  /** Commentary lines around the triples do not change the result. */
  lemma NoiseIgnored(before: seq<string>, body: seq<string>, after: seq<string>)
    requires forall j :: 0 <= j < |before| ==> !IsTripleLine(before[j])
    requires forall j :: 0 <= j < |after| ==> !IsTripleLine(after[j])
    requires body != [] && IsTripleLine(body[0]) && IsTripleLine(body[|body| - 1])
    ensures TrimCommentNoise(before + body + after) == body
  {
    var lines := before + body + after;
    var m := |before| + |body|;
    assert lines[|before|] == body[0] && lines[m - 1] == body[|body| - 1];
    assert forall j :: 0 <= j < |before| ==> lines[j] == before[j];
    assert forall j :: m <= j < |lines| ==> lines[j] == after[j - m];
    assert FirstTriple(lines) == |before|;
    assert LastTriple(lines) == m - 1;
    assert lines[|before|..|before| + |body|] == body;
  }
}
