/**
 * Aggregation of the user's text and the extracted document texts into
 * one canonical input: a "[USER QUERY]" part when the user wrote
 * something, one headed part per non-blank extracted text in input order,
 * all joined by a horizontal-rule separator.
 */
module TextAggregation {
  import opened Common

  /** One `(source_type, source_ref, text)` tuple. */
  datatype Extracted = Extracted(sourceType: string, sourceRef: string, text: string)

  const Separator: string := "\n\n---\n\n"

  /** One part of the aggregate, before it is written out. */
  datatype Part = UserQuery(query: string) | SourceText(source: Extracted)

  /**
   * `f"[USER QUERY]\n{user_text.strip()}"` and
   * `f"[{source_type.upper()}: {source_ref}]\n{text.strip()}"`
   */
  function Render(p: Part): (r: string)
    ensures r != [] && r[0] == '['
  {
    match p
    case UserQuery(q) => "[USER QUERY]\n" + Strip(q)
    case SourceText(e) => "[" + Upper(e.sourceType) + ": " + e.sourceRef + "]\n" + Strip(e.text)
  }

  function RenderAll(ps: seq<Part>): (r: seq<string>)
    ensures |r| == |ps|
    ensures forall k :: 0 <= k < |r| ==> r[k] != []
  {
    if ps == [] then [] else [Render(ps[0])] + RenderAll(ps[1..])
  }

  lemma {:induction false} RenderAllAppend(a: seq<Part>, b: seq<Part>)
    ensures RenderAll(a + b) == RenderAll(a) + RenderAll(b)
  {
    if a != [] {
      assert (a + b)[1..] == a[1..] + b;
      RenderAllAppend(a[1..], b);
    } else {
      assert a + b == b;
    }
  }

  /** The parts contributed by the extracted texts, in order, blanks skipped. */
  function SourceParts(texts: seq<Extracted>): seq<Part>
  {
    if texts == [] then [] else Contribution(texts[0]) + SourceParts(texts[1..])
  }

  /** The part one extracted text contributes: none when it is blank. */
  function Contribution(e: Extracted): seq<Part>
  {
    if IsBlank(e.text) then [] else [SourceText(e)]
  }

  function Head(userText: string): seq<Part>
  {
    if IsBlank(userText) then [] else [UserQuery(userText)]
  }

  /** All parts: the user part first when the user text is not blank. */
  function Parts(userText: string, texts: seq<Extracted>): seq<Part>
  {
    Head(userText) + SourceParts(texts)
  }

  function NonBlankCount(texts: seq<Extracted>): nat
  {
    if texts == [] then 0 else (if IsBlank(texts[0].text) then 0 else 1) + NonBlankCount(texts[1..])
  }

  /** The aggregate the parts make. */
  function Aggregated(userText: string, texts: seq<Extracted>): string
  {
    Join(RenderAll(Parts(userText, texts)), Separator)
  }

  /** `TextAggregator.aggregate` */
  method Aggregate(userText: string, texts: seq<Extracted>) returns (r: string)
    ensures r == Aggregated(userText, texts)
  {
    var parts: seq<string> := [];
    if !IsBlank(userText) {
      parts := parts + [Render(UserQuery(userText))];
    }
    assert parts == RenderAll(Head(userText));
    parts := AppendSourceParts(parts, texts);
    RenderAllAppend(Head(userText), SourceParts(texts));
    r := Join(parts, Separator);
  }

  /** The loop of `aggregate` over the extracted texts, appending to `parts`. */
  method AppendSourceParts(parts0: seq<string>, texts: seq<Extracted>) returns (parts: seq<string>)
    ensures parts == parts0 + RenderAll(SourceParts(texts))
  {
    parts := parts0;
    var i := 0;
    assert texts[..0] == [];
    while i < |texts|
      invariant 0 <= i <= |texts|
      invariant parts == parts0 + RenderAll(SourceParts(texts[..i]))
    {
      ghost var prev := parts;
      parts := AppendContribution(parts, texts[i]);
      AppendStep(parts0, texts, i, prev, parts);
      i := i + 1;
    }
    assert texts[..i] == texts;
  }

  lemma AppendStep(parts0: seq<string>, texts: seq<Extracted>, i: nat, prev: seq<string>, next: seq<string>)
    requires i < |texts|
    requires prev == parts0 + RenderAll(SourceParts(texts[..i]))
    requires next == prev + RenderAll(Contribution(texts[i]))
    ensures next == parts0 + RenderAll(SourceParts(texts[..i + 1]))
  {
    SourcePartsSnoc(texts, i);
    RenderAllAppend(SourceParts(texts[..i]), Contribution(texts[i]));
    ConcatAssoc(parts0, RenderAll(SourceParts(texts[..i])), RenderAll(Contribution(texts[i])));
  }

  /** One turn of the loop: a header and the stripped text, unless the text is blank. */
  method AppendContribution(parts0: seq<string>, e: Extracted) returns (parts: seq<string>)
    ensures parts == parts0 + RenderAll(Contribution(e))
  {
    parts := parts0;
    if !IsBlank(e.text) {
      parts := parts + [Render(SourceText(e))];
    }
  }

  lemma SourcePartsSnoc(texts: seq<Extracted>, i: nat)
    requires i < |texts|
    ensures SourceParts(texts[..i + 1]) == SourceParts(texts[..i]) + Contribution(texts[i])
  {
    assert texts[..i + 1] == texts[..i] + [texts[i]];
    SourcePartsAppend(texts[..i], [texts[i]]);
    assert [texts[i]][1..] == [];
  }

  /** The source parts of a concatenation are those of each half, in order. */
  lemma {:induction false} SourcePartsAppend(a: seq<Extracted>, b: seq<Extracted>)
    ensures SourceParts(a + b) == SourceParts(a) + SourceParts(b)
  {
    if a == [] {
      assert a + b == b;
    } else {
      assert (a + b)[1..] == a[1..] + b;
      SourcePartsAppend(a[1..], b);
    }
  }

  /** One part per non-blank text, each standing for the text at its position. */
  lemma {:induction false} SourcePartsCount(texts: seq<Extracted>)
    ensures |SourceParts(texts)| == NonBlankCount(texts)
    ensures forall i :: 0 <= i < |texts| && !IsBlank(texts[i].text) ==> SourceText(texts[i]) in SourceParts(texts)
    ensures forall p :: p in SourceParts(texts) ==>
      exists i :: 0 <= i < |texts| && !IsBlank(texts[i].text) && p == SourceText(texts[i])
  {
    if texts != [] {
      SourcePartsCount(texts[1..]);
      var rest := SourceParts(texts[1..]);
      assert forall i :: 1 <= i < |texts| ==> texts[i] == texts[1..][i - 1];
      forall p | p in SourceParts(texts)
        ensures exists i :: 0 <= i < |texts| && !IsBlank(texts[i].text) && p == SourceText(texts[i])
      {
        if p in rest {
          var j :| 0 <= j < |texts[1..]| && !IsBlank(texts[1..][j].text) && p == SourceText(texts[1..][j]);
          assert texts[j + 1] == texts[1..][j];
        }
      }
    }
  }

  lemma {:induction false} JoinEmpty(parts: seq<string>, sep: string)
    requires forall k :: 0 <= k < |parts| ==> parts[k] != []
    ensures Join(parts, sep) == "" <==> parts == []
  {
    if |parts| > 1 {
      assert |Join(parts, sep)| >= |parts[0]|;
    }
  }

  /**
   * The aggregate is empty exactly when the user text and every extracted
   * text are blank.
   */
  lemma AggregateEmpty(userText: string, texts: seq<Extracted>)
    ensures Aggregated(userText, texts) == ""
      <==> IsBlank(userText) && forall i :: 0 <= i < |texts| ==> IsBlank(texts[i].text)
  {
    JoinEmpty(RenderAll(Parts(userText, texts)), Separator);
    SourcePartsCount(texts);
    if Parts(userText, texts) != [] && IsBlank(userText) {
      var p := SourceParts(texts)[0];
      assert p in SourceParts(texts);
      var i :| 0 <= i < |texts| && !IsBlank(texts[i].text) && p == SourceText(texts[i]);
    }
  }

  /**
   * The user part comes first exactly when the user text is not blank,
   * the extracted texts follow in order, and there is one part per
   * non-blank extracted text.
   */
  lemma PartsShape(userText: string, texts: seq<Extracted>)
    ensures !IsBlank(userText) <==> |Parts(userText, texts)| == NonBlankCount(texts) + 1
    ensures !IsBlank(userText) ==> RenderAll(Parts(userText, texts))[0] == "[USER QUERY]\n" + Strip(userText)
    ensures IsBlank(userText) ==> Parts(userText, texts) == SourceParts(texts)
    ensures !IsBlank(userText) ==> Parts(userText, texts)[1..] == SourceParts(texts)
  {
    SourcePartsCount(texts);
  }

  /** The metadata dictionary of `aggregate_with_metadata`. */
  datatype Metadata = Metadata(
    hasUserText: bool, sourceCount: nat, sources: seq<(string, string)>,
    canonicalTextLength: nat, aggregationMethod: string)

  /** The metadata of `aggregate_with_metadata` for an aggregate of the given length. */
  function MetadataOf(userText: string, texts: seq<Extracted>, length: nat): (md: Metadata)
    ensures md.hasUserText == !IsBlank(userText)
    ensures md.sourceCount == |texts| && |md.sources| == |texts|
    ensures forall i :: 0 <= i < |texts| ==> md.sources[i] == (texts[i].sourceType, texts[i].sourceRef)
    ensures md.canonicalTextLength == length
    ensures md.aggregationMethod == "concatenation_with_headers"
  {
    var sources := seq(|texts|, i requires 0 <= i < |texts| => (texts[i].sourceType, texts[i].sourceRef));
    Metadata(!IsBlank(userText), |texts|, sources, length, "concatenation_with_headers")
  }

  /** `TextAggregator.aggregate_with_metadata` */
  method AggregateWithMetadata(userText: string, texts: seq<Extracted>) returns (r: string, md: Metadata)
    ensures r == Aggregated(userText, texts)
    ensures md == MetadataOf(userText, texts, |r|)
  {
    r := Aggregate(userText, texts);
    md := MetadataOf(userText, texts, |r|);
  }
}
