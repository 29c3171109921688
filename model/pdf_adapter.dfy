/**
 * The layout-aware PDF extractor: a state machine over the text blocks of
 * each page, in reading order. A short block naming a known section starts
 * a region; the blocks under it are buffered and emitted as one region
 * when the next heading arrives, if the region is whitelisted; the first
 * block mentioning an excluded section ends the whole scan. When no region
 * comes out, whole pages are taken progressively up to a token budget.
 *
 * The document is given as its pages, each with the texts of its blocks
 * already in reading order and the text of the whole page.
 */
module PdfAdapter {
  import opened Common

  /** `ExtractionRegion(text, region_type, page_num)` */
  datatype Region = Region(text: string, regionType: string, pageNum: int)

  /** One page: its block texts in reading order and its whole text. */
  datatype Page = Page(blocks: seq<string>, text: string)

  /** The fields of the extraction configuration the adapter reads. */
  datatype ExtractionConfig = ExtractionConfig(
    whitelistedRegions: seq<string>, excludedRegions: seq<string>, fallbackMaxTokens: int)

  /** Section headings and the region each one starts. */
  const RegionMarkers: map<string, string> := map[
    "abstract" := "abstract",
    "introduction" := "introduction",
    "conclusion" := "conclusion",
    "conclusions" := "conclusion",
    "results" := "results",
    "result" := "results",
    "method" := "methods",
    "methods" := "methods",
    "methodology" := "methods",
    "discussion" := "discussion"]

  /** `s.rstrip(".")` */
  function StripDots(s: string): (r: string)
    ensures |r| <= |s| && r == s[..|r|]
    ensures r != [] ==> r[|r| - 1] != '.'
    ensures forall i :: |r| <= i < |s| ==> s[i] == '.'
  {
    if s != [] && s[|s| - 1] == '.' then StripDots(s[..|s| - 1]) else s
  }

  /** The key a block is looked up under: lowercased, stripped, trailing dots removed. */
  function HeadingKey(text: string): string
  {
    StripDots(Strip(Lower(text)))
  }

  /** `_detect_region` */
  function DetectRegion(text: string): (r: Option<string>)
    ensures |text| > 80 ==> r == None
    ensures r.Some? <==> |text| <= 80 && HeadingKey(text) in RegionMarkers
  {
    if |text| > 80 then None
    else
      var key := HeadingKey(text);
      if key in RegionMarkers then Some(RegionMarkers[key]) else None
  }

  /** Detection ignores letter case. */
  lemma DetectIgnoresCase(text: string)
    ensures DetectRegion(Lower(text)) == DetectRegion(text)
  {
    LowerIdempotent(text);
  }

  /** A trailing period after a heading does not change what it detects. */
  lemma DetectIgnoresPeriod(text: string)
    requires |text| < 80 && text != [] && !IsSpaceChar(text[|text| - 1])
    ensures DetectRegion(text + ".") == DetectRegion(text)
  {
    HeadingKeyPeriod(text);
  }

  lemma HeadingKeyPeriod(text: string)
    requires text != [] && !IsSpaceChar(text[|text| - 1])
    ensures HeadingKey(text + ".") == HeadingKey(text)
  {
    var l := Lower(text);
    LowerAppendPeriod(text);
    StripAppendPeriod(l);
    var k := Strip(l);
    assert (k + ".")[..|k|] == k;
    assert StripDots(k + ".") == StripDots(k);
  }

  lemma LowerAppendPeriod(text: string)
    requires text != [] && !IsSpaceChar(text[|text| - 1])
    ensures Lower(text + ".") == Lower(text) + "."
    ensures Lower(text) != [] && !IsSpaceChar(Lower(text)[|text| - 1])
  {
    LowerAppend(text, ".");
    assert Lower(".") == ".";
  }

  /** Stripping a string that does not end in whitespace, then a period. */
  lemma StripAppendPeriod(s: string)
    requires s != [] && !IsSpaceChar(s[|s| - 1])
    ensures Strip(s + ".") == Strip(s) + "."
  {
    StripLeftAppend(s, ".");
    var l := StripLeft(s);
    assert l != [] && l[|l| - 1] == s[|s| - 1];
    StripRightKept(l + ".");
    StripRightKept(l);
  }

  /** Stripping the left of a string that is not blank keeps its tail. */
  lemma {:induction false} StripLeftAppend(a: string, b: string)
    requires a != [] && !IsSpaceChar(a[|a| - 1])
    ensures StripLeft(a + b) == StripLeft(a) + b
  {
    if IsSpaceChar(a[0]) {
      assert (a + b)[1..] == a[1..] + b;
      StripLeftAppend(a[1..], b);
    }
  }

  // ---------------------------------------------------------------------
  // Flushing a buffer
  // ---------------------------------------------------------------------

  /** The region a flush emits, if any. */
  function Emitted(buffer: seq<string>, region: Option<string>, whitelisted: seq<string>, pageNum: int): (r: Option<Region>)
    ensures r.Some? <==>
      buffer != [] && region.Some? && region.value in whitelisted && !IsBlank(Join(buffer, " "))
    ensures r.Some? ==> r.value == Region(Strip(Join(buffer, " ")), region.value, pageNum)
  {
    StripBlank(Join(buffer, " "));
    if buffer == [] || region.None? then None
    else if region.value !in whitelisted then None
    else
      var full := Strip(Join(buffer, " "));
      if full != [] then Some(Region(full, region.value, pageNum)) else None
  }

  function EmittedSeq(buffer: seq<string>, region: Option<string>, whitelisted: seq<string>, pageNum: int): seq<Region>
  {
    match Emitted(buffer, region, whitelisted, pageNum)
    case Some(r) => [r]
    case None => []
  }

  /** `_flush`: appends the buffer's region to `output` when it qualifies. */
  method Flush(buffer: seq<string>, region: Option<string>, whitelisted: seq<string>,
               output: seq<Region>, pageNum: int) returns (output': seq<Region>)
    ensures output' == output + EmittedSeq(buffer, region, whitelisted, pageNum)
  {
    if buffer == [] || region.None? {
      return output;
    }
    if region.value !in whitelisted {
      return output;
    }
    var fullText := Strip(Join(buffer, " "));
    output' := output;
    if fullText != [] {
      output' := output' + [Region(fullText, region.value, pageNum)];
    }
  }

  // ---------------------------------------------------------------------
  // The block scan
  // ---------------------------------------------------------------------

  /** The state carried across blocks and pages. */
  datatype Scan = Scan(current: Option<string>, buffer: seq<string>, out: seq<Region>, pruned: bool)

  const Start: Scan := Scan(None, [], [], false)

  /** The first 80 characters of `s`. */
  function Head80(s: string): string
  {
    if |s| <= 80 then s else s[..80]
  }

  /** Some excluded marker occurs in the first 80 characters of the lowercased block. */
  predicate ExcludedIn(lowerText: string, excluded: seq<string>)
  {
    exists k :: 0 <= k < |excluded| && Contains(Head80(lowerText), excluded[k])
  }

  /** What a block is to the scan: blank, an exclusion marker, a heading or body text. */
  datatype Kind = Blank | Excluded | Heading(region: string, text: string) | Body(text: string)

  /** The kind of a block, judged on its stripped text. */
  function Classify(raw: string, excluded: seq<string>): Kind
  {
    var text := Strip(raw);
    if text == [] then Blank
    else if ExcludedIn(Lower(text), excluded) then Excluded
    else match DetectRegion(text)
      case Some(region) => Heading(region, text)
      case None => Body(text)
  }

  /**
   * A block is blank exactly when its stripped text is empty; otherwise it
   * is an exclusion marker exactly when its lowercased head holds one, and
   * otherwise a heading or body text as heading detection decides, carrying
   * the stripped text.
   */
  lemma ClassifySpec(raw: string, excluded: seq<string>)
    ensures var k := Classify(raw, excluded);
      && (k.Blank? <==> Strip(raw) == [])
      && (k.Excluded? <==> Strip(raw) != [] && ExcludedIn(Lower(Strip(raw)), excluded))
      && (k.Heading? ==> k.text == Strip(raw) && DetectRegion(Strip(raw)) == Some(k.region))
      && (k.Body? ==> k.text == Strip(raw) && k.text != [] && DetectRegion(Strip(raw)).None?)
      && (k.Heading? || k.Body? ==> !ExcludedIn(Lower(Strip(raw)), excluded))
  {
  }

  /** The kinds of the blocks of a page, in order. */
  function Kinds(blocks: seq<string>, excluded: seq<string>): (r: seq<Kind>)
    ensures |r| == |blocks|
  {
    seq(|blocks|, j requires 0 <= j < |blocks| => Classify(blocks[j], excluded))
  }

  /** The effect of one block on the scan. */
  function Step(st: Scan, kind: Kind, pageNum: int, whitelisted: seq<string>): Scan
  {
    match kind
    case Blank => st
    case Excluded => Scan(st.current, st.buffer, st.out + EmittedSeq(st.buffer, st.current, whitelisted, pageNum), true)
    case Heading(region, text) =>
      if Some(region) != st.current then
        Scan(Some(region), [], st.out + EmittedSeq(st.buffer, st.current, whitelisted, pageNum), false)
      else st.(buffer := st.buffer + [text])
    case Body(text) =>
      if st.current.Some? then st.(buffer := st.buffer + [text]) else st
  }

  /** The blocks of one page, stopping once the scan is pruned. */
  function ScanBlocks(st: Scan, kinds: seq<Kind>, pageNum: int, whitelisted: seq<string>): Scan
    decreases |kinds|
  {
    if kinds == [] || st.pruned then st
    else ScanBlocks(Step(st, kinds[0], pageNum, whitelisted), kinds[1..], pageNum, whitelisted)
  }

  /** The block kinds of every page. */
  function DocKinds(pages: seq<Page>, excluded: seq<string>): (r: seq<seq<Kind>>)
    ensures |r| == |pages|
  {
    if pages == [] then [] else [Kinds(pages[0].blocks, excluded)] + DocKinds(pages[1..], excluded)
  }

  lemma {:induction false} DocKindsAt(pages: seq<Page>, excluded: seq<string>, i: nat)
    requires i < |pages|
    ensures DocKinds(pages, excluded)[i] == Kinds(pages[i].blocks, excluded)
  {
    if i > 0 {
      DocKindsAt(pages[1..], excluded, i - 1);
    }
  }

  /** The pages from `pageNum` on, stopping once the scan is pruned. */
  function ScanPages(st: Scan, pages: seq<seq<Kind>>, pageNum: int, whitelisted: seq<string>): Scan
    decreases |pages|
  {
    if pages == [] || st.pruned then st
    else ScanPages(ScanBlocks(st, pages[0], pageNum, whitelisted), pages[1..], pageNum + 1, whitelisted)
  }

  /** The regions of the scan, with the final flush when it was not pruned. */
  function ScannedRegions(pages: seq<Page>, config: ExtractionConfig): seq<Region>
  {
    var st := ScanPages(Start, DocKinds(pages, config.excludedRegions), 1, config.whitelistedRegions);
    if st.pruned then st.out
    else st.out + EmittedSeq(st.buffer, st.current, config.whitelistedRegions, if pages == [] then 1 else |pages|)
  }

  /** What `extract_regions` returns. */
  function Extraction(pages: seq<Page>, config: ExtractionConfig): seq<Region>
  {
    var regions := ScannedRegions(pages, config);
    if regions == [] && config.fallbackMaxTokens > 0 then
      var text := Fallback(pages, config.fallbackMaxTokens);
      if IsBlank(text) then [] else [Region(text, "fallback_progressive", 1)]
    else regions
  }

  // ---------------------------------------------------------------------
  // Properties of the scan
  // ---------------------------------------------------------------------

  /** A region the scan emits: whitelisted, its text non-empty and stripped. */
  predicate GoodRegion(r: Region, whitelisted: seq<string>)
  {
    r.regionType in whitelisted && r.text != [] && !IsSpaceChar(r.text[0]) && !IsSpaceChar(r.text[|r.text| - 1])
  }

  /** What holds of the scan state after every block. */
  predicate GoodScan(st: Scan, whitelisted: seq<string>)
  {
    && (st.current.None? ==> st.buffer == [])
    && (forall k :: 0 <= k < |st.out| ==> GoodRegion(st.out[k], whitelisted))
  }

  lemma EmittedGood(buffer: seq<string>, region: Option<string>, whitelisted: seq<string>, pageNum: int)
    ensures forall k :: 0 <= k < |EmittedSeq(buffer, region, whitelisted, pageNum)| ==>
      GoodRegion(EmittedSeq(buffer, region, whitelisted, pageNum)[k], whitelisted)
  {
  }

  /**
   * One block keeps the scan good: text is buffered only inside a named
   * region, and the regions emitted are whitelisted with stripped,
   * non-empty text.
   */
  lemma StepGood(st: Scan, kind: Kind, pageNum: int, whitelisted: seq<string>)
    requires GoodScan(st, whitelisted)
    ensures GoodScan(Step(st, kind, pageNum, whitelisted), whitelisted)
  {
    EmittedGood(st.buffer, st.current, whitelisted, pageNum);
  }

  lemma {:induction false} ScanBlocksGood(st: Scan, kinds: seq<Kind>, pageNum: int, whitelisted: seq<string>)
    requires GoodScan(st, whitelisted)
    ensures GoodScan(ScanBlocks(st, kinds, pageNum, whitelisted), whitelisted)
    decreases |kinds|
  {
    if kinds != [] && !st.pruned {
      StepGood(st, kinds[0], pageNum, whitelisted);
      ScanBlocksGood(Step(st, kinds[0], pageNum, whitelisted), kinds[1..], pageNum, whitelisted);
    }
  }

  lemma {:induction false} ScanPagesGood(st: Scan, pages: seq<seq<Kind>>, pageNum: int, whitelisted: seq<string>)
    requires GoodScan(st, whitelisted)
    ensures GoodScan(ScanPages(st, pages, pageNum, whitelisted), whitelisted)
    decreases |pages|
  {
    if pages != [] && !st.pruned {
      ScanBlocksGood(st, pages[0], pageNum, whitelisted);
      ScanPagesGood(ScanBlocks(st, pages[0], pageNum, whitelisted), pages[1..], pageNum + 1, whitelisted);
    }
  }

  /** Every region the scan returns is whitelisted and has stripped, non-empty text. */
  lemma ScannedRegionsGood(pages: seq<Page>, config: ExtractionConfig)
    ensures forall k :: 0 <= k < |ScannedRegions(pages, config)| ==>
      GoodRegion(ScannedRegions(pages, config)[k], config.whitelistedRegions)
  {
    var dk := DocKinds(pages, config.excludedRegions);
    ScanPagesGood(Start, dk, 1, config.whitelistedRegions);
    var st := ScanPages(Start, dk, 1, config.whitelistedRegions);
    EmittedGood(st.buffer, st.current, config.whitelistedRegions, if pages == [] then 1 else |pages|);
  }

  /**
   * A heading of a region other than the current one flushes the current
   * buffer, starts the new region and is not itself buffered; a heading of
   * the current region flushes nothing and is buffered like body text.
   */
  lemma HeadingStep(st: Scan, raw: string, pageNum: int, config: ExtractionConfig)
    requires Strip(raw) != [] && !ExcludedIn(Lower(Strip(raw)), config.excludedRegions)
    requires DetectRegion(Strip(raw)).Some?
    ensures var d := DetectRegion(Strip(raw));
      var st' := Step(st, Classify(raw, config.excludedRegions), pageNum, config.whitelistedRegions);
      && (d != st.current ==>
            && st'.current == d && st'.buffer == [] && !st'.pruned
            && st'.out == st.out + EmittedSeq(st.buffer, st.current, config.whitelistedRegions, pageNum))
      && (d == st.current ==>
            st'.out == st.out && st'.current == st.current && st'.buffer == st.buffer + [Strip(raw)])
  {
  }

  /** Outside a named region, text that is not a heading is dropped. */
  lemma OutsideRegionDropped(st: Scan, raw: string, pageNum: int, config: ExtractionConfig)
    requires st.current.None? && DetectRegion(Strip(raw)).None?
    ensures var st' := Step(st, Classify(raw, config.excludedRegions), pageNum, config.whitelistedRegions);
      st'.buffer == st.buffer && st'.current.None?
  {
  }

  /**
   * A block whose first 80 lowercase characters hold an excluded marker
   * flushes the buffer and prunes the scan.
   */
  lemma ExclusionPrunes(st: Scan, raw: string, pageNum: int, config: ExtractionConfig)
    requires Strip(raw) != [] && ExcludedIn(Lower(Strip(raw)), config.excludedRegions)
    ensures var st' := Step(st, Classify(raw, config.excludedRegions), pageNum, config.whitelistedRegions);
      st'.pruned && st'.out == st.out + EmittedSeq(st.buffer, st.current, config.whitelistedRegions, pageNum)
  {
  }

  /** Scanning two runs of pages is scanning the first, then the second. */
  lemma {:induction false} ScanPagesAppend(st: Scan, a: seq<seq<Kind>>, b: seq<seq<Kind>>, pageNum: int, whitelisted: seq<string>)
    ensures ScanPages(st, a + b, pageNum, whitelisted)
      == ScanPages(ScanPages(st, a, pageNum, whitelisted), b, pageNum + |a|, whitelisted)
    decreases |a|
  {
    if a == [] {
      assert a + b == b;
    } else if !st.pruned {
      assert (a + b)[0] == a[0];
      assert (a + b)[1..] == a[1..] + b;
      ScanPagesAppend(ScanBlocks(st, a[0], pageNum, whitelisted), a[1..], b, pageNum + 1, whitelisted);
    }
  }

  /**
   * Once a block prunes the scan, nothing after it matters: neither the
   * rest of its page nor any later page changes the state.
   */
  lemma PruneIsFinal(st: Scan, a: seq<seq<Kind>>, b: seq<seq<Kind>>, pageNum: int, whitelisted: seq<string>)
    requires ScanPages(st, a, pageNum, whitelisted).pruned
    ensures ScanPages(st, a + b, pageNum, whitelisted) == ScanPages(st, a, pageNum, whitelisted)
  {
    ScanPagesAppend(st, a, b, pageNum, whitelisted);
  }

  // ---------------------------------------------------------------------
  // The progressive fallback
  // ---------------------------------------------------------------------

  /** `page.get_text("text").strip()` for every page, in order. */
  function PageTexts(pages: seq<Page>): (ts: seq<string>)
    ensures |ts| == |pages|
  {
    if pages == [] then [] else [Strip(pages[0].text)] + PageTexts(pages[1..])
  }

  lemma {:induction false} PageTextAt(pages: seq<Page>, i: nat)
    requires i < |pages|
    ensures PageTexts(pages)[i] == Strip(pages[i].text)
  {
    if i > 0 {
      PageTextAt(pages[1..], i - 1);
    }
  }

  /** No text starts with whitespace, as stripped texts do not. */
  predicate StartsClean(ts: seq<string>)
  {
    forall k :: 0 <= k < |ts| && ts[k] != [] ==> !IsSpaceChar(ts[k][0])
  }

  lemma PageTextsClean(pages: seq<Page>)
    ensures StartsClean(PageTexts(pages))
  {
    forall k | 0 <= k < |pages| && PageTexts(pages)[k] != []
      ensures !IsSpaceChar(PageTexts(pages)[k][0])
    {
      PageTextAt(pages, k);
    }
  }

  /** The texts from position `i` on that are not empty, in order. */
  function NonBlankFrom(ts: seq<string>, i: nat): seq<string>
    requires i <= |ts|
    decreases |ts| - i
  {
    if i == |ts| then []
    else (if ts[i] == [] then [] else [ts[i]]) + NonBlankFrom(ts, i + 1)
  }

  /** The stripped texts of the pages that are not blank, in page order. */
  function NonBlankPages(pages: seq<Page>): seq<string>
  {
    NonBlankFrom(PageTexts(pages), 0)
  }

  function TotalLength(ts: seq<string>): nat
  {
    if ts == [] then 0 else |ts[0]| + TotalLength(ts[1..])
  }

  /**
   * The texts taken, `acc` characters having been taken before: each is
   * taken while the running total stays within `maxTokens * 3.5`
   * characters, and the first that would go over ends the run.
   */
  function TakeWithin(ts: seq<string>, acc: int, maxTokens: int): (r: seq<string>)
    ensures |r| <= |ts|
  {
    if ts == [] || 2 * (acc + |ts[0]|) > 7 * maxTokens then []
    else [ts[0]] + TakeWithin(ts[1..], acc + |ts[0]|, maxTokens)
  }

  /**
   * The page loop of `_extract_fallback_progressive` over the stripped
   * page texts from position `i` on, with the texts `taken` so far and
   * their `chars` characters: an empty text is skipped, the first text
   * over budget ends the loop.
   */
  function FallbackLoop(ts: seq<string>, i: nat, taken: seq<string>, chars: int, maxTokens: int): seq<string>
    requires i <= |ts|
    decreases |ts| - i
  {
    if i == |ts| then taken
    else if ts[i] == [] then FallbackLoop(ts, i + 1, taken, chars, maxTokens)
    else if 2 * (chars + |ts[i]|) > 7 * maxTokens then taken
    else FallbackLoop(ts, i + 1, taken + [ts[i]], chars + |ts[i]|, maxTokens)
  }

  /** The pages `_extract_fallback_progressive` takes. */
  function FallbackTexts(pages: seq<Page>, maxTokens: int): seq<string>
  {
    FallbackLoop(PageTexts(pages), 0, [], 0, maxTokens)
  }

  /** `_extract_fallback_progressive` */
  function Fallback(pages: seq<Page>, maxTokens: int): string
  {
    Join(FallbackTexts(pages, maxTokens), "\n\n")
  }

  lemma TakeWithinCons(t: string, rest: seq<string>, acc: int, maxTokens: int)
    ensures TakeWithin([t] + rest, acc, maxTokens)
      == if 2 * (acc + |t|) > 7 * maxTokens then [] else [t] + TakeWithin(rest, acc + |t|, maxTokens)
  {
    assert ([t] + rest)[1..] == rest;
  }

  /** A page taken within budget: one step of the loop and of its specification agree. */
  lemma FallbackLoopTakeStep(ts: seq<string>, i: nat, taken: seq<string>, chars: int, maxTokens: int)
    requires i < |ts| && ts[i] != [] && 2 * (chars + |ts[i]|) <= 7 * maxTokens
    requires FallbackLoop(ts, i + 1, taken + [ts[i]], chars + |ts[i]|, maxTokens)
      == (taken + [ts[i]]) + TakeWithin(NonBlankFrom(ts, i + 1), chars + |ts[i]|, maxTokens)
    ensures FallbackLoop(ts, i, taken, chars, maxTokens) == taken + TakeWithin(NonBlankFrom(ts, i), chars, maxTokens)
  {
    var t, rest := ts[i], NonBlankFrom(ts, i + 1);
    assert NonBlankFrom(ts, i) == [t] + rest;
    TakeWithinCons(t, rest, chars, maxTokens);
    var more := TakeWithin(rest, chars + |t|, maxTokens);
    assert (taken + [t]) + more == taken + ([t] + more);
  }

  /**
   * The loop takes, after what it has already taken, the non-empty texts
   * in order for as long as they fit the budget.
   */
  lemma {:induction false} FallbackLoopTakes(ts: seq<string>, i: nat, taken: seq<string>, chars: int, maxTokens: int)
    requires i <= |ts|
    ensures FallbackLoop(ts, i, taken, chars, maxTokens) == taken + TakeWithin(NonBlankFrom(ts, i), chars, maxTokens)
    decreases |ts| - i
  {
    if i == |ts| {
      assert taken + [] == taken;
    } else if ts[i] == [] {
      assert NonBlankFrom(ts, i) == [] + NonBlankFrom(ts, i + 1) == NonBlankFrom(ts, i + 1);
      FallbackLoopTakes(ts, i + 1, taken, chars, maxTokens);
    } else if 2 * (chars + |ts[i]|) > 7 * maxTokens {
      assert NonBlankFrom(ts, i) == [ts[i]] + NonBlankFrom(ts, i + 1);
      TakeWithinCons(ts[i], NonBlankFrom(ts, i + 1), chars, maxTokens);
      assert taken + [] == taken;
    } else {
      FallbackLoopTakes(ts, i + 1, taken + [ts[i]], chars + |ts[i]|, maxTokens);
      FallbackLoopTakeStep(ts, i, taken, chars, maxTokens);
    }
  }

  /** Every text kept is non-empty, and starts clean when all texts do. */
  lemma {:induction false} NonBlankFromClean(ts: seq<string>, i: nat)
    requires i <= |ts| && StartsClean(ts)
    ensures forall k :: 0 <= k < |NonBlankFrom(ts, i)| ==>
      NonBlankFrom(ts, i)[k] != [] && !IsSpaceChar(NonBlankFrom(ts, i)[k][0])
    decreases |ts| - i
  {
    if i < |ts| {
      NonBlankFromClean(ts, i + 1);
    }
  }

  /**
   * The texts taken are a prefix of the candidates, they fit the budget,
   * and the first candidate left out would not have fit.
   */
  lemma {:induction false} TakeWithinSpec(ts: seq<string>, acc: int, maxTokens: int)
    requires 2 * acc <= 7 * maxTokens
    ensures var r := TakeWithin(ts, acc, maxTokens);
      && r == ts[..|r|]
      && 2 * (acc + TotalLength(r)) <= 7 * maxTokens
      && (|r| < |ts| ==> 2 * (acc + TotalLength(r) + |ts[|r|]|) > 7 * maxTokens)
  {
    var r := TakeWithin(ts, acc, maxTokens);
    if ts == [] || 2 * (acc + |ts[0]|) > 7 * maxTokens {
    } else {
      TakeWithinSpec(ts[1..], acc + |ts[0]|, maxTokens);
      var r1 := TakeWithin(ts[1..], acc + |ts[0]|, maxTokens);
      assert r == [ts[0]] + r1;
      assert r[1..] == r1;
      assert ts == [ts[0]] + ts[1..];
      assert ts[..|r|] == [ts[0]] + ts[1..][..|r1|];
      if |r| < |ts| {
        assert ts[|r|] == ts[1..][|r1|];
      }
    }
  }

  /**
   * The pages the fallback takes are the leading non-blank pages that fit
   * the budget: a prefix of them, within `maxTokens * 3.5` characters, and
   * the next one would not have fit.
   */
  lemma FallbackTextsSpec(pages: seq<Page>, maxTokens: int)
    requires maxTokens >= 0
    ensures var all := NonBlankPages(pages);
      var taken := FallbackTexts(pages, maxTokens);
      && |taken| <= |all| && taken == all[..|taken|]
      && 2 * TotalLength(taken) <= 7 * maxTokens
      && (|taken| < |all| ==> 2 * (TotalLength(taken) + |all[|taken|]|) > 7 * maxTokens)
      && forall k :: 0 <= k < |taken| ==> taken[k] != [] && !IsSpaceChar(taken[k][0])
  {
    var ts := PageTexts(pages);
    FallbackLoopTakes(ts, 0, [], 0, maxTokens);
    assert [] + TakeWithin(NonBlankFrom(ts, 0), 0, maxTokens) == TakeWithin(NonBlankFrom(ts, 0), 0, maxTokens);
    TakeWithinSpec(NonBlankFrom(ts, 0), 0, maxTokens);
    PageTextsClean(pages);
    NonBlankFromClean(ts, 0);
  }

  /** The fallback text is blank exactly when no page is taken. */
  lemma FallbackBlank(pages: seq<Page>, maxTokens: int)
    requires maxTokens >= 0
    ensures IsBlank(Fallback(pages, maxTokens)) <==> FallbackTexts(pages, maxTokens) == []
  {
    var ts := FallbackTexts(pages, maxTokens);
    if ts != [] {
      FallbackTextsSpec(pages, maxTokens);
      assert ts[0] != [] && !IsSpaceChar(ts[0][0]);
      if |ts| > 1 {
        assert Fallback(pages, maxTokens) == ts[0] + ("\n\n" + Join(ts[1..], "\n\n"));
      }
      assert Fallback(pages, maxTokens)[0] == ts[0][0];
    }
  }

  // ---------------------------------------------------------------------
  // The methods
  // ---------------------------------------------------------------------

  /** `any(exc in lower_text[:80] for exc in excluded)` */
  method IsExcluded(lowerText: string, excluded: seq<string>) returns (b: bool)
    ensures b == ExcludedIn(lowerText, excluded)
  {
    var head := Head80(lowerText);
    var k := 0;
    while k < |excluded|
      invariant 0 <= k <= |excluded|
      invariant forall j :: 0 <= j < k ==> !Contains(head, excluded[j])
    {
      if Contains(head, excluded[k]) {
        return true;
      }
      k := k + 1;
    }
    return false;
  }

  /**
   * The tests of the block loop on one block, in the order it makes them:
   * stripped text empty, exclusion marker, region heading.
   */
  method ClassifyBlock(blocks: seq<string>, j: nat, excluded: seq<string>) returns (kind: Kind)
    requires j < |blocks|
    ensures kind == Kinds(blocks, excluded)[j]
  {
    var text := Strip(blocks[j]);
    if text == [] {
      return Blank;
    }
    var lowerText := Lower(text);
    var isExcluded := IsExcluded(lowerText, excluded);
    if isExcluded {
      return Excluded;
    }
    var detected := DetectRegion(text);
    if detected.Some? {
      return Heading(detected.value, text);
    }
    return Body(text);
  }

  /** The effect of one classified block on the state the block loop carries. */
  method ApplyBlock(current0: Option<string>, buffer0: seq<string>, out0: seq<Region>,
                    kind: Kind, pageNum: int, whitelisted: seq<string>)
    returns (current: Option<string>, buffer: seq<string>, out: seq<Region>, pruned: bool)
    ensures Scan(current, buffer, out, pruned) == Step(Scan(current0, buffer0, out0, false), kind, pageNum, whitelisted)
  {
    current, buffer, out, pruned := current0, buffer0, out0, false;
    match kind {
      case Blank =>
      case Excluded =>
        out := Flush(buffer, current, whitelisted, out, pageNum);
        pruned := true;
      case Heading(region, text) =>
        if Some(region) != current {
          out := Flush(buffer, current, whitelisted, out, pageNum);
          current := Some(region);
          buffer := [];
        } else {
          buffer := buffer + [text];
        }
      case Body(text) =>
        if current.Some? {
          buffer := buffer + [text];
        }
    }
  }

  /** The loop over one page's blocks, on the state the page loop carries. */
  method ScanPage(current0: Option<string>, buffer0: seq<string>, out0: seq<Region>,
                  blocks: seq<string>, pageNum: int, config: ExtractionConfig)
    returns (current: Option<string>, buffer: seq<string>, out: seq<Region>, pruned: bool)
    ensures Scan(current, buffer, out, pruned)
         == ScanBlocks(Scan(current0, buffer0, out0, false), Kinds(blocks, config.excludedRegions), pageNum, config.whitelistedRegions)
  {
    ghost var kinds := Kinds(blocks, config.excludedRegions);
    current, buffer, out, pruned := current0, buffer0, out0, false;
    var j := 0;
    while j < |blocks|
      invariant 0 <= j <= |blocks|
      invariant !pruned
      invariant ScanBlocks(Scan(current, buffer, out, false), kinds[j..], pageNum, config.whitelistedRegions)
             == ScanBlocks(Scan(current0, buffer0, out0, false), kinds, pageNum, config.whitelistedRegions)
    {
      var kind := ClassifyBlock(blocks, j, config.excludedRegions);
      assert kinds[j..][0] == kind;
      assert kinds[j..][1..] == kinds[j + 1..];
      current, buffer, out, pruned := ApplyBlock(current, buffer, out, kind, pageNum, config.whitelistedRegions);
      if pruned {
        return;
      }
      j := j + 1;
    }
    assert kinds[j..] == [];
  }

  /** The page loop and final flush of `extract_regions`. */
  method ScanDocument(pages: seq<Page>, config: ExtractionConfig) returns (regions: seq<Region>)
    ensures regions == ScannedRegions(pages, config)
  {
    var current: Option<string> := None;
    var buffer: seq<string> := [];
    regions := [];
    var pruned := false;
    ghost var dk := DocKinds(pages, config.excludedRegions);
    var i := 0;
    while i < |pages|
      invariant 0 <= i <= |pages|
      invariant ScanPages(Scan(current, buffer, regions, pruned), dk[i..], i + 1, config.whitelistedRegions)
             == ScanPages(Start, dk, 1, config.whitelistedRegions)
      invariant pruned ==> ScanPages(Start, dk, 1, config.whitelistedRegions) == Scan(current, buffer, regions, pruned)
    {
      if pruned {
        break;
      }
      DocKindsAt(pages, config.excludedRegions, i);
      assert dk[i..][0] == Kinds(pages[i].blocks, config.excludedRegions);
      assert dk[i..][1..] == dk[i + 1..];
      current, buffer, regions, pruned := ScanPage(current, buffer, regions, pages[i].blocks, i + 1, config);
      i := i + 1;
    }
    if !pruned {
      assert dk[i..] == [];
      regions := Flush(buffer, current, config.whitelistedRegions, regions, if i == 0 then 1 else i);
    }
  }

  /** `page.get_text("text").strip()` for page `i`. */
  method ReadPageText(pages: seq<Page>, i: nat) returns (text: string)
    requires i < |pages|
    ensures text == PageTexts(pages)[i]
    ensures text != [] ==> !IsSpaceChar(text[0]) && !IsSpaceChar(text[|text| - 1])
  {
    text := Strip(pages[i].text);
    PageTextAt(pages, i);
  }

  /** `_extract_fallback_progressive` */
  method FallbackProgressive(pages: seq<Page>, maxTokens: int) returns (text: string)
    ensures text == Fallback(pages, maxTokens)
  {
    ghost var ts := PageTexts(pages);
    var accumulated: seq<string> := [];
    var chars := 0;
    var i := 0;
    while i < |pages|
      invariant 0 <= i <= |pages|
      invariant FallbackLoop(ts, i, accumulated, chars, maxTokens) == FallbackLoop(ts, 0, [], 0, maxTokens)
    {
      var pageText := ReadPageText(pages, i);
      if pageText == [] {
        i := i + 1;
        continue;
      }
      if 2 * (chars + |pageText|) > 7 * maxTokens {
        break;
      }
      accumulated := accumulated + [pageText];
      chars := chars + |pageText|;
      i := i + 1;
    }
    text := Join(accumulated, "\n\n");
  }

  /** `PDFAdapter.extract_regions` on an opened document. */
  method ExtractRegions(pages: seq<Page>, config: ExtractionConfig) returns (regions: seq<Region>)
    ensures regions == Extraction(pages, config)
  {
    regions := ScanDocument(pages, config);
    if regions == [] && config.fallbackMaxTokens > 0 {
      var fallbackText := FallbackProgressive(pages, config.fallbackMaxTokens);
      if !IsBlank(fallbackText) {
        regions := regions + [Region(fallbackText, "fallback_progressive", 1)];
      }
    }
  }

  /**
   * What comes out: whitelisted regions with non-empty stripped text, or,
   * only when there is none and the budget is positive, a single fallback
   * region on page 1 made of the leading pages that fit the budget.
   */
  lemma ExtractionSpec(pages: seq<Page>, config: ExtractionConfig)
    ensures var r := Extraction(pages, config);
      var scanned := ScannedRegions(pages, config);
      && (scanned != [] ==> r == scanned)
      && (forall k :: 0 <= k < |scanned| ==> GoodRegion(scanned[k], config.whitelistedRegions))
      && (scanned == [] && config.fallbackMaxTokens <= 0 ==> r == [])
      && (scanned == [] && config.fallbackMaxTokens > 0 ==>
            var all := NonBlankPages(pages);
            var taken := FallbackTexts(pages, config.fallbackMaxTokens);
            && |taken| <= |all| && taken == all[..|taken|]
            && 2 * TotalLength(taken) <= 7 * config.fallbackMaxTokens
            && (|taken| < |all| ==> 2 * (TotalLength(taken) + |all[|taken|]|) > 7 * config.fallbackMaxTokens)
            && (taken == [] <==> r == [])
            && (taken != [] ==> r == [Region(Join(taken, "\n\n"), "fallback_progressive", 1)]))
  {
    ScannedRegionsGood(pages, config);
    if ScannedRegions(pages, config) == [] && config.fallbackMaxTokens > 0 {
      FallbackTextsSpec(pages, config.fallbackMaxTokens);
      FallbackBlank(pages, config.fallbackMaxTokens);
    }
  }
}
