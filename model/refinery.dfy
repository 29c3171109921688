/**
 * The text refinery's span splitting and span joining. A long text is cut
 * into spans of at most `max_chars` characters, preferring a paragraph
 * break, then a line break, then a space; every span is refined by the
 * language model (a parameter here) and the non-empty results are joined
 * with newlines.
 */
module Refinery {
  import opened Common

  // ---------------------------------------------------------------------
  // `str.rfind(sub, 0, end)`
  // ---------------------------------------------------------------------

  /**
   * `s.rfind(sub, 0, end)` for `0 <= end <= |s|`: the last start of `sub`
   * that ends by `end`, or -1.
   */
  function RFind(s: string, sub: string, end: nat): (r: int)
    requires end <= |s| && sub != []
    ensures r == -1 || (0 <= r && r + |sub| <= end && OccursAt(s, sub, r))
    ensures r == -1 ==> forall i :: 0 <= i && i + |sub| <= end ==> !OccursAt(s, sub, i)
    ensures r >= 0 ==> forall i :: r < i && i + |sub| <= end ==> !OccursAt(s, sub, i)
    decreases end
  {
    if end < |sub| then -1
    else if OccursAt(s, sub, end - |sub|) then end - |sub|
    else RFind(s, sub, end - 1)
  }

  /**
   * Where the loop of `_split_into_spans` cuts a text longer than
   * `maxChars`: the last "\n\n" that fits, else the last "\n", else the
   * last " ", else `maxChars` itself.
   */
  function SplitIndex(rem: string, maxChars: nat): (idx: nat)
    requires maxChars < |rem|
    ensures idx <= maxChars
    ensures var a := RFind(rem, "\n\n", maxChars);
            var b := RFind(rem, "\n", maxChars);
            var c := RFind(rem, " ", maxChars);
      && (a >= 0 ==> idx == a)
      && (a < 0 && b >= 0 ==> idx == b)
      && (a < 0 && b < 0 && c >= 0 ==> idx == c)
      && (a < 0 && b < 0 && c < 0 ==> idx == maxChars)
    ensures idx == 0 ==> maxChars == 0 || IsSpaceChar(rem[0])
  {
    var a := RFind(rem, "\n\n", maxChars);
    if a >= 0 then a
    else
      var b := RFind(rem, "\n", maxChars);
      if b >= 0 then b
      else
        var c := RFind(rem, " ", maxChars);
        if c >= 0 then c else maxChars
  }

  /** Stripping a string that starts with whitespace shortens it. */
  lemma StripShortens(s: string)
    requires s != [] && IsSpaceChar(s[0])
    ensures |Strip(s)| < |s|
  {
    assert StripLeft(s) == StripLeft(s[1..]);
  }

  /** What remains after a cut is shorter than before it. */
  lemma SplitShrinks(rem: string, maxChars: nat)
    requires 1 <= maxChars < |rem|
    ensures |Strip(rem[SplitIndex(rem, maxChars)..])| < |rem|
  {
    if SplitIndex(rem, maxChars) == 0 {
      StripShortens(rem);
    }
  }

  /**
   * As written, with `max_chars == 0` a cut never makes progress: on a
   * stripped, non-empty remainder every turn cuts at 0, appends the empty
   * span and leaves the remainder as it was, so the loop never ends.
   */
  lemma ZeroWidthStalls(rem: string)
    requires rem != [] && Strip(rem) == rem
    ensures SplitIndex(rem, 0) == 0
    ensures Strip(rem[..SplitIndex(rem, 0)]) == [] && Strip(rem[SplitIndex(rem, 0)..]) == rem
  {
    assert RFind(rem, "\n\n", 0) == -1 && RFind(rem, "\n", 0) == -1 && RFind(rem, " ", 0) == -1;
    assert rem[0..] == rem;
  }

  /**
   * The spans `_split_into_spans` appends from `rem` on, once the text
   * is longer than `maxChars`; the trailing remainder is kept when it is
   * not empty.
   */
  function SpansFrom(rem: string, maxChars: nat): (r: seq<string>)
    requires maxChars >= 1
    decreases |rem|
  {
    if |rem| <= maxChars then (if rem == [] then [] else [rem])
    else
      var idx := SplitIndex(rem, maxChars);
      SplitShrinks(rem, maxChars);
      [Strip(rem[..idx])] + SpansFrom(Strip(rem[idx..]), maxChars)
  }

  /** `_split_into_spans(text, max_chars)` */
  function Spans(text: string, maxChars: nat): seq<string>
    requires maxChars >= 1
  {
    if |text| <= maxChars then [text] else SpansFrom(text, maxChars)
  }

  // ---------------------------------------------------------------------
  // What the split guarantees
  // ---------------------------------------------------------------------

  /** Every span fits, and the spans hold the non-whitespace characters of the text, in order. */
  lemma SpansFromSpec(rem: string, maxChars: nat)
    requires maxChars >= 1
    ensures var r := SpansFrom(rem, maxChars);
      && (forall k :: 0 <= k < |r| ==> |r[k]| <= maxChars)
      && NonSpace(Concat(r)) == NonSpace(rem)
  {
    SpansFromFit(rem, maxChars);
    SpansFromKeep(rem, maxChars);
  }

  lemma {:induction false} SpansFromFit(rem: string, maxChars: nat)
    requires maxChars >= 1
    ensures forall k :: 0 <= k < |SpansFrom(rem, maxChars)| ==> |SpansFrom(rem, maxChars)[k]| <= maxChars
    decreases |rem|
  {
    if |rem| > maxChars {
      var idx := SplitIndex(rem, maxChars);
      SpansStep(rem, maxChars);
      var tail := Strip(rem[idx..]);
      SpansFromFit(tail, maxChars);
      FitCons(Strip(rem[..idx]), SpansFrom(tail, maxChars), SpansFrom(rem, maxChars), maxChars);
    }
  }

  lemma FitCons(head: string, rest: seq<string>, r: seq<string>, maxChars: nat)
    requires |head| <= maxChars && r == [head] + rest
    requires forall k :: 0 <= k < |rest| ==> |rest[k]| <= maxChars
    ensures forall k :: 0 <= k < |r| ==> |r[k]| <= maxChars
  {
    forall k | 0 < k < |r|
      ensures |r[k]| <= maxChars
    {
      assert r[k] == rest[k - 1];
    }
  }

  lemma {:induction false} SpansFromKeep(rem: string, maxChars: nat)
    requires maxChars >= 1
    ensures NonSpace(Concat(SpansFrom(rem, maxChars))) == NonSpace(rem)
    decreases |rem|
  {
    if |rem| <= maxChars {
      if rem != [] {
        ConcatOne(rem);
      }
    } else {
      SplitShrinks(rem, maxChars);
      SpansFromKeep(Strip(rem[SplitIndex(rem, maxChars)..]), maxChars);
      KeepStep(rem, maxChars);
    }
  }

  lemma KeepStep(rem: string, maxChars: nat)
    requires 1 <= maxChars < |rem|
    requires var tail := Strip(rem[SplitIndex(rem, maxChars)..]);
      NonSpace(Concat(SpansFrom(tail, maxChars))) == NonSpace(tail)
    ensures NonSpace(Concat(SpansFrom(rem, maxChars))) == NonSpace(rem)
  {
    var idx := SplitIndex(rem, maxChars);
    SpansStep(rem, maxChars);
    var tail := Strip(rem[idx..]);
    NonSpaceStrip(rem[..idx]);
    NonSpaceStrip(rem[idx..]);
    SplitJoin(rem, idx);
    KeepCons(rem[..idx], rem[idx..], Strip(rem[..idx]), tail, SpansFrom(tail, maxChars));
  }

  /** The non-whitespace characters survive a cut into `a` and `b`, each stripped. */
  lemma KeepCons(a: string, b: string, head: string, tail: string, rest: seq<string>)
    requires NonSpace(head) == NonSpace(a) && NonSpace(tail) == NonSpace(b)
    requires NonSpace(Concat(rest)) == NonSpace(tail)
    ensures NonSpace(Concat([head] + rest)) == NonSpace(a + b)
  {
    ConcatCons(head, rest);
    NonSpaceAppend(head, Concat(rest));
    NonSpaceAppend(a, b);
  }

  /**
   * `_split_into_spans`: a text that fits is one span; otherwise no span
   * is longer than `max_chars` and, whitespace at the cuts aside, the
   * spans put back together are the text.
   */
  lemma SpansSpec(text: string, maxChars: nat)
    requires maxChars >= 1
    ensures |text| <= maxChars ==> Spans(text, maxChars) == [text]
    ensures forall k :: 0 <= k < |Spans(text, maxChars)| ==> |Spans(text, maxChars)[k]| <= maxChars
    ensures NonSpace(Concat(Spans(text, maxChars))) == NonSpace(text)
  {
    if |text| <= maxChars {
      ConcatOne(text);
    } else {
      SpansFromSpec(text, maxChars);
    }
  }

  /** One cut: the first span, then the spans of what remains. */
  lemma SpansStep(rem: string, maxChars: nat)
    requires 1 <= maxChars < |rem|
    ensures |Strip(rem[SplitIndex(rem, maxChars)..])| < |rem|
    ensures SpansFrom(rem, maxChars) ==
      [Strip(rem[..SplitIndex(rem, maxChars)])] + SpansFrom(Strip(rem[SplitIndex(rem, maxChars)..]), maxChars)
  {
    SplitShrinks(rem, maxChars);
  }

  /** The `rfind` cascade of one turn of the loop. */
  method FindCut(remaining: string, maxChars: nat) returns (splitIdx: int)
    requires maxChars < |remaining|
    ensures splitIdx == SplitIndex(remaining, maxChars)
  {
    splitIdx := RFind(remaining, "\n\n", maxChars);
    if splitIdx == -1 {
      splitIdx := RFind(remaining, "\n", maxChars);
    }
    if splitIdx == -1 {
      splitIdx := RFind(remaining, " ", maxChars);
    }
    if splitIdx == -1 {
      splitIdx := maxChars;
    }
  }

  /** One turn of the loop: the stripped text before the cut, and the stripped rest. */
  method Cut(remaining: string, maxChars: nat) returns (head: string, tail: string)
    requires 1 <= maxChars < |remaining|
    ensures |tail| < |remaining|
    ensures SpansFrom(remaining, maxChars) == [head] + SpansFrom(tail, maxChars)
  {
    var splitIdx := FindCut(remaining, maxChars);
    head, tail := Strip(remaining[..splitIdx]), Strip(remaining[splitIdx..]);
    SpansStep(remaining, maxChars);
  }

  /**
   * `_split_into_spans`. A `max_chars` of 0 would never shrink what
   * remains, so the loop is only entered with `max_chars >= 1`.
   */
  method SplitIntoSpans(text: string, maxChars: nat) returns (spans: seq<string>)
    requires maxChars >= 1
    ensures spans == Spans(text, maxChars)
  {
    if |text| <= maxChars {
      return [text];
    }
    spans := [];
    var remaining := text;
    while |remaining| > maxChars
      invariant spans + SpansFrom(remaining, maxChars) == SpansFrom(text, maxChars)
      decreases |remaining|
    {
      var head, tail := Cut(remaining, maxChars);
      ConcatAssoc(spans, [head], SpansFrom(tail, maxChars));
      spans := spans + [head];
      remaining := tail;
    }
    if remaining != [] {
      spans := spans + [remaining];
    }
  }

  // ---------------------------------------------------------------------
  // `refine_text`
  // ---------------------------------------------------------------------

  /**
   * The refined spans in order, the empty ones dropped; the first span
   * whose refinement raises makes the whole call raise.
   */
  function RefineAll(spans: seq<string>, refine: string -> Outcome<string>): Outcome<seq<string>>
  {
    if spans == [] then Success([])
    else match refine(spans[0])
      case Failure(e) => Failure(e)
      case Success(clean) =>
        match RefineAll(spans[1..], refine)
        case Failure(e) => Failure(e)
        case Success(rest) => Success(if clean == [] then rest else [clean] + rest)
  }

  /** The kept refinements are all non-empty and are the refinements of the spans, in order. */
  lemma {:induction false} RefineAllSpec(spans: seq<string>, refine: string -> Outcome<string>)
    ensures RefineAll(spans, refine).Success? <==> forall k :: 0 <= k < |spans| ==> refine(spans[k]).Success?
    ensures RefineAll(spans, refine).Success? ==>
      forall c :: c in RefineAll(spans, refine).value <==>
        c != [] && exists k :: 0 <= k < |spans| && refine(spans[k]) == Success(c)
  {
    if spans != [] {
      RefineAllSpec(spans[1..], refine);
      if RefineAll(spans, refine).Success? {
        var rest := RefineAll(spans[1..], refine).value;
        forall c
          ensures c in RefineAll(spans, refine).value <==>
            c != [] && exists k :: 0 <= k < |spans| && refine(spans[k]) == Success(c)
        {
          if c != [] && exists k :: 0 <= k < |spans| && refine(spans[k]) == Success(c) {
            var k :| 0 <= k < |spans| && refine(spans[k]) == Success(c);
            if k > 0 {
              assert spans[1..][k - 1] == spans[k];
            }
          }
          if c in rest {
            var k :| 0 <= k < |spans[1..]| && refine(spans[1..][k]) == Success(c);
            assert spans[k + 1] == spans[1..][k];
          }
        }
      } else {
        if refine(spans[0]).Success? {
          var k :| 0 <= k < |spans[1..]| && !refine(spans[1..][k]).Success?;
          assert spans[k + 1] == spans[1..][k];
        }
      }
    }
  }

  /** `prefix` in front of what the rest of the spans give, or the rest's exception. */
  function Prefixed(prefix: seq<string>, rest: Outcome<seq<string>>): Outcome<seq<string>>
  {
    match rest
    case Failure(e) => Failure(e)
    case Success(tail) => Success(prefix + tail)
  }

  /** One span: its refinement, kept when non-empty, in front of the rest. */
  lemma RefineStep(spans: seq<string>, j: nat, refine: string -> Outcome<string>)
    requires j < |spans|
    ensures refine(spans[j]).Failure? ==> RefineAll(spans[j..], refine) == Failure(refine(spans[j]).error)
    ensures refine(spans[j]).Success? ==>
      var c := refine(spans[j]).value;
      RefineAll(spans[j..], refine) == Prefixed(if c == [] then [] else [c], RefineAll(spans[j + 1..], refine))
  {
    assert spans[j..][1..] == spans[j + 1..];
    var c := refine(spans[j]);
    if c.Success? && RefineAll(spans[j + 1..], refine).Success? {
      var tail := RefineAll(spans[j + 1..], refine).value;
      assert [] + tail == tail;
    }
  }

  /** The joined text, or the exception. */
  function Joined(o: Outcome<seq<string>>): Outcome<string>
  {
    match o
    case Failure(e) => Failure(e)
    case Success(kept) => Success(Join(kept, "\n"))
  }

  /** The loop of `refine_text`: each span refined in order, stopping at the first exception. */
  method RefineSpans(spans: seq<string>, refine: string -> Outcome<string>) returns (r: Outcome<seq<string>>)
    ensures r == RefineAll(spans, refine)
  {
    var refined: seq<string> := [];
    var j := 0;
    assert spans[0..] == spans;
    assert Prefixed([], RefineAll(spans, refine)) == RefineAll(spans, refine) by {
      if RefineAll(spans, refine).Success? {
        assert [] + RefineAll(spans, refine).value == RefineAll(spans, refine).value;
      }
    }
    while j < |spans|
      invariant 0 <= j <= |spans|
      invariant RefineAll(spans, refine) == Prefixed(refined, RefineAll(spans[j..], refine))
    {
      RefineStep(spans, j, refine);
      var clean := refine(spans[j]);
      if clean.Failure? {
        return Failure(clean.error);
      }
      ghost var rest := RefineAll(spans[j + 1..], refine);
      if clean.value != [] {
        if rest.Success? {
          ConcatAssoc(refined, [clean.value], rest.value);
        }
        refined := refined + [clean.value];
      } else {
        assert rest.Success? ==> [] + rest.value == rest.value;
      }
      j := j + 1;
    }
    assert spans[|spans|..] == [];
    assert refined + [] == refined;
    r := Success(refined);
  }

  /**
   * `refine_text` with `max_chars = max_tokens_per_span * 3`; `refine`
   * is `_refine_span`, whose exception propagates.
   */
  method RefineText(rawText: string, maxTokensPerSpan: nat, refine: string -> Outcome<string>)
    returns (r: Outcome<string>)
    requires maxTokensPerSpan >= 1
    ensures IsBlank(rawText) ==> r == Success("")
    ensures !IsBlank(rawText) ==> r == Joined(RefineAll(Spans(rawText, maxTokensPerSpan * 3), refine))
  {
    if IsBlank(rawText) {
      return Success("");
    }
    var spans := SplitIntoSpans(rawText, maxTokensPerSpan * 3);
    var refined := RefineSpans(spans, refine);
    r := Joined(refined);
  }
}
