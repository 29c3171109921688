/**
 * The ingestion loop of a job: every unprocessed ingestion source of the
 * job, oldest first, is normalized, segmented into text blocks numbered
 * from 1, and marked processed. The `ingestion_sources` and `text_blocks`
 * tables are sequences (sources oldest first); a commit keeps a source's
 * changes and a rollback drops them. Sentence tokenizing, Unicode
 * normalization, e-mail removal, lexical repair and section detection are
 * parameters.
 *
 * As written, a source whose processing raises is rolled back and stays
 * unprocessed, so the next query returns the same source again and the
 * loop never ends (`StepAsWritten`, `AsWrittenStuck`); the loop modelled
 * here (`IngestJob`) attempts every unprocessed source once and leaves the
 * failing ones unprocessed, as the comment "continue to next source"
 * intends. Also as written, the keyword arguments are defaulted before the
 * job configuration is read, so the configured sentences per block and
 * lexical repair are never used (`EffectiveAsWritten`); the loop here uses
 * them when the caller passes no keyword arguments (`Effective`). And as
 * written, the "sections" strategy hands the segmenter's (title, text)
 * pairs to the `block_text` column, so the commit raises
 * (`SectionsAsWrittenFail`); the segmentation here stores each section's
 * text as a block.
 */
module IngestionService {
  import opened Common
  import N = IngestNormalizer
  import S = Segmenter

  datatype Source = Source(id: nat, jobId: nat, rawText: string, processed: bool)

  datatype TextBlock = TextBlock(
    jobId: nat, sourceId: nat, blockText: string, blockOrder: nat,
    blockType: string, strategy: string, triplesExtracted: bool)

  /** The dictionary `ingest_job` returns. */
  datatype Summary = Summary(jobId: nat, sourcesProcessed: nat, blocksCreated: nat)

  /** `job_config["expert_settings"]["ingestion"]`: the two settings read, `None` when absent. */
  datatype IngestSettings = IngestSettings(sentencesPerBlock: Option<int>, enableLexicalRepair: Option<bool>)

  /** What the loop does with every source: the strategy, its arguments and the normalization. */
  datatype Setup = Setup(
    strategy: string, args: S.SegmentArgs, flags: N.Flags, ext: N.Externals,
    sections: string -> seq<(string, string)>)

  // ---------------------------------------------------------------------
  // `_segment_text`
  // ---------------------------------------------------------------------

  /** The strategies with which `segment_by_length` ends on every text. */
  predicate Ends(strategy: string, args: S.SegmentArgs)
  {
    strategy == "length" ==> S.Step(Get(args.blockLength, 300), Get(args.overlap, 50)) > 0
  }

  predicate Known(strategy: string)
  {
    strategy == "sentences" || strategy == "paragraphs" || strategy == "length" || strategy == "sections"
  }

  /**
   * `_segment_text`: dispatch on the strategy with the same defaults as the
   * segmenter; an unknown strategy raises `ValueError`, and so does a
   * sentences-per-block of 0.
   */
  function SegmentText(text: string, strategy: string, args: S.SegmentArgs, sections: seq<(string, string)>)
    : (r: Outcome<seq<string>>)
    requires Ends(strategy, args)
    ensures r.Failure? <==> !Known(strategy) || (strategy == "sentences" && Get(args.sentencesPerBlock, 3) == 0)
    ensures strategy == "sentences" && Get(args.sentencesPerBlock, 3) < 0 ==> r == Success([])
    ensures strategy == "sections" ==> r.Success? && |r.value| == |sections|
  {
    if strategy == "sentences" then
      var n := Get(args.sentencesPerBlock, 3);
      if n == 0 then Failure("ValueError: range() arg 3 must not be zero")
      else if n < 0 then Success([])
      else Success(S.Chunks(S.Sentences(text), n))
    else if strategy == "paragraphs" then Success(S.Merged(S.Paragraphs(text), Get(args.minParaLength, 50)))
    else if strategy == "length" then Success(S.Windows(text, Get(args.blockLength, 300), Get(args.overlap, 50)))
    else if strategy == "sections" then Success(seq(|sections|, k requires 0 <= k < |sections| => sections[k].1))
    else Failure("ValueError: Unknown segmentation strategy: " + strategy)
  }

  /** A value `_segment_text` hands back: a string, or for "sections" a (title, text) pair. */
  datatype BlockValue = Str(text: string) | Pair(title: string, body: string)

  /**
   * `_segment_text` as written: for "sections" it returns the segmenter's
   * (title, text) pairs unchanged; every other strategy gives the strings
   * of `SegmentText`.
   */
  function SegmentTextAsWritten(text: string, strategy: string, args: S.SegmentArgs, sections: seq<(string, string)>)
    : (r: Outcome<seq<BlockValue>>)
    requires Ends(strategy, args)
    ensures strategy == "sections" ==>
      r.Success? && |r.value| == |sections| && forall k :: 0 <= k < |sections| ==> r.value[k] == Pair(sections[k].0, sections[k].1)
  {
    if strategy == "sections" then Success(seq(|sections|, k requires 0 <= k < |sections| => Pair(sections[k].0, sections[k].1)))
    else
      match SegmentText(text, strategy, args, sections)
      case Success(bs) => Success(seq(|bs|, k requires 0 <= k < |bs| => Str(bs[k])))
      case Failure(e) => Failure(e)
  }

  /** Every value is a string, which the `Text` column `block_text` accepts. */
  predicate AllStrings(values: seq<BlockValue>)
  {
    forall k :: 0 <= k < |values| ==> values[k].Str?
  }

  /**
   * Adding the rows and committing: the `Text` column takes strings, and
   * a tuple makes the commit raise.
   */
  function InsertBlocks(values: seq<BlockValue>): (r: Outcome<seq<string>>)
    ensures r.Success? <==> AllStrings(values)
    ensures r.Success? ==> |r.value| == |values| && forall k :: 0 <= k < |values| ==> r.value[k] == values[k].text
  {
    if AllStrings(values) then Success(seq(|values|, k requires 0 <= k < |values| => values[k].text))
    else Failure("block_text: a tuple is not a string")
  }

  /**
   * As written, a source segmented by "sections" into at least one
   * section fails at the commit; the segmentation used here stores each
   * section's text as a block instead.
   */
  lemma SectionsAsWrittenFail(text: string, args: S.SegmentArgs, sections: seq<(string, string)>)
    requires sections != []
    ensures SegmentTextAsWritten(text, "sections", args, sections).Success?
    ensures InsertBlocks(SegmentTextAsWritten(text, "sections", args, sections).value).Failure?
    ensures SegmentText(text, "sections", args, sections)
      == Success(seq(|sections|, k requires 0 <= k < |sections| => sections[k].1))
  {
    assert !SegmentTextAsWritten(text, "sections", args, sections).value[0].Str?;
  }

  /** For every other strategy the code as written and the segmentation used here store the same blocks. */
  lemma OtherStrategiesAgree(text: string, strategy: string, args: S.SegmentArgs, sections: seq<(string, string)>)
    requires Ends(strategy, args) && strategy != "sections"
    ensures var w := SegmentTextAsWritten(text, strategy, args, sections);
      var c := SegmentText(text, strategy, args, sections);
      && (w.Success? <==> c.Success?)
      && (w.Success? ==> InsertBlocks(w.value) == c)
  {
    var c := SegmentText(text, strategy, args, sections);
    if c.Success? {
      var w := SegmentTextAsWritten(text, strategy, args, sections).value;
      assert AllStrings(w);
      assert InsertBlocks(w).value == c.value;
    }
  }

  // ---------------------------------------------------------------------
  // One source
  // ---------------------------------------------------------------------

  /**
   * The `try` body for one source: normalize the raw text, then segment
   * it; the blocks, or what raised. The loop only runs with strategies
   * that end, so the last case is never used.
   */
  function Attempt(setup: Setup, src: Source): Outcome<seq<string>>
  {
    var text := N.Normalize(src.rawText, setup.flags, setup.ext).0;
    if Ends(setup.strategy, setup.args) then SegmentText(text, setup.strategy, setup.args, setup.sections(text))
    else Failure("segment_by_length does not end")
  }

  function AttemptOf(setup: Setup): AttemptFn
  {
    src => Attempt(setup, src)
  }

  /** The rows `enumerate(blocks, 1)` creates for one source. */
  function BlocksFor(jobId: nat, sourceId: nat, texts: seq<string>, strategy: string): (r: seq<TextBlock>)
    ensures |r| == |texts|
  {
    seq(|texts|, k requires 0 <= k < |texts| => TextBlock(jobId, sourceId, texts[k], k + 1, "text_block", strategy, false))
  }

  /** The `try` body for one source, as the loop sees it. */
  type AttemptFn = Source -> Outcome<seq<string>>

  /** An unprocessed source of the job. */
  predicate Pending(src: Source, jobId: nat)
  {
    src.jobId == jobId && !src.processed
  }

  /** A source after its one attempt: processed exactly when it was pending and succeeded. */
  function AfterAttempt(src: Source, jobId: nat, attempt: AttemptFn): Source
  {
    if Pending(src, jobId) && attempt(src).Success? then src.(processed := true) else src
  }

  /** The rows one source adds: its blocks when it was pending and succeeded, none otherwise. */
  function AddedBy(src: Source, jobId: nat, attempt: AttemptFn, strategy: string): seq<TextBlock>
  {
    if Pending(src, jobId) then
      match attempt(src)
      case Success(texts) => BlocksFor(jobId, src.id, texts, strategy)
      case Failure(_) => []
    else []
  }

  /** The rows a run over `srcs` adds, source by source. */
  function NewBlocks(srcs: seq<Source>, jobId: nat, attempt: AttemptFn, strategy: string): seq<TextBlock>
  {
    if srcs == [] then []
    else NewBlocks(srcs[..|srcs| - 1], jobId, attempt, strategy) + AddedBy(srcs[|srcs| - 1], jobId, attempt, strategy)
  }

  /** The number of sources a run over `srcs` marks processed. */
  function Successes(srcs: seq<Source>, jobId: nat, attempt: AttemptFn): nat
  {
    if srcs == [] then 0
    else
      var last := srcs[|srcs| - 1];
      Successes(srcs[..|srcs| - 1], jobId, attempt)
        + (if Pending(last, jobId) && attempt(last).Success? then 1 else 0)
  }

  function AfterAll(srcs: seq<Source>, jobId: nat, attempt: AttemptFn): (r: seq<Source>)
    ensures |r| == |srcs|
    ensures forall i :: 0 <= i < |srcs| ==> r[i] == AfterAttempt(srcs[i], jobId, attempt)
  {
    seq(|srcs|, i requires 0 <= i < |srcs| => AfterAttempt(srcs[i], jobId, attempt))
  }

  // ---------------------------------------------------------------------
  // Arguments
  // ---------------------------------------------------------------------

  const DefaultFlags: N.Flags := N.Flags(true, true, true, true, true, None)

  /**
   * As written: `None` keyword arguments become `{"sentences_per_block": 3}`
   * and `{}` before the job configuration is read, so the configuration is
   * never used.
   */
  function EffectiveAsWritten(segKwargs: Option<S.SegmentArgs>, normKwargs: Option<N.Flags>, settings: IngestSettings)
    : (S.SegmentArgs, N.Flags)
  {
    (Get(segKwargs, S.SegmentArgs(Some(3), None, None, None)), Get(normKwargs, DefaultFlags))
  }

  /** As intended: arguments not passed come from the job configuration. */
  function Effective(segKwargs: Option<S.SegmentArgs>, normKwargs: Option<N.Flags>, settings: IngestSettings)
    : (S.SegmentArgs, N.Flags)
  {
    (Get(segKwargs, S.SegmentArgs(Some(Get(settings.sentencesPerBlock, 3)), None, None, None)),
     Get(normKwargs, DefaultFlags.(lexical := Some(Get(settings.enableLexicalRepair, false)))))
  }

  /** The configured lexical repair and block size are lost as written. */
  lemma EffectiveAsWrittenIgnoresSettings(settings: IngestSettings)
    requires settings == IngestSettings(Some(5), Some(true))
    ensures EffectiveAsWritten(None, None, settings).1.lexical == None
    ensures EffectiveAsWritten(None, None, settings).0.sentencesPerBlock == Some(3)
    ensures Effective(None, None, settings).1.lexical == Some(true)
    ensures Effective(None, None, settings).0.sentencesPerBlock == Some(5)
  {
  }

  /**
   * Passed arguments win over the configuration, and with no configured
   * settings the intended arguments normalize and segment exactly as
   * those written do.
   */
  lemma EffectiveAgrees(segKwargs: Option<S.SegmentArgs>, normKwargs: Option<N.Flags>, settings: IngestSettings,
                        text: string, ext: N.Externals)
    ensures segKwargs.Some? ==> Effective(segKwargs, normKwargs, settings).0 == segKwargs.value
    ensures normKwargs.Some? ==> Effective(segKwargs, normKwargs, settings).1 == normKwargs.value
    ensures settings == IngestSettings(None, None) ==>
      && Effective(segKwargs, normKwargs, settings).0 == EffectiveAsWritten(segKwargs, normKwargs, settings).0
      && N.Normalize(text, Effective(segKwargs, normKwargs, settings).1, ext)
         == N.Normalize(text, EffectiveAsWritten(segKwargs, normKwargs, settings).1, ext)
  {
    if settings == IngestSettings(None, None) && normKwargs.None? {
      var flags := Effective(segKwargs, normKwargs, settings).1;
      N.LexicalOffIsUnset(text, flags, ext);
      assert flags.(lexical := None) == DefaultFlags;
    }
  }

  // ---------------------------------------------------------------------
  // `ingest_job`
  // ---------------------------------------------------------------------

  /**
   * `ingest_job`. `status` is the job's status, `None` when there is no
   * such job. Both checks come before any change; on success every
   * pending source has been attempted once, in order.
   */
  method IngestJob(jobId: nat, status: Option<string>, settings: IngestSettings,
                   strategy: string, segKwargs: Option<S.SegmentArgs>, normKwargs: Option<N.Flags>,
                   ext: N.Externals, sections: string -> seq<(string, string)>,
                   sources: seq<Source>, blocks: seq<TextBlock>)
    returns (r: Outcome<Summary>, sources': seq<Source>, blocks': seq<TextBlock>)
    requires Ends(strategy, Effective(segKwargs, normKwargs, settings).0)
    ensures status.None? ==> r.Failure? && sources' == sources && blocks' == blocks
    ensures status.Some? && status.value != "READY_TO_INGEST" ==> r.Failure? && sources' == sources && blocks' == blocks
    ensures status == Some("READY_TO_INGEST") ==>
      var (args, flags) := Effective(segKwargs, normKwargs, settings);
      var attempt := AttemptOf(Setup(strategy, args, flags, ext, sections));
      && sources' == AfterAll(sources, jobId, attempt)
      && blocks' == blocks + NewBlocks(sources, jobId, attempt, strategy)
      && r == Success(Summary(jobId, Successes(sources, jobId, attempt), |NewBlocks(sources, jobId, attempt, strategy)|))
  {
    if status.None? {
      return Failure("ValueError: Job not found"), sources, blocks;
    }
    if status.value != "READY_TO_INGEST" {
      return Failure("RuntimeError: Cannot ingest job: status is '" + status.value + "', expected 'READY_TO_INGEST'"),
        sources, blocks;
    }
    var (args, flags) := Effective(segKwargs, normKwargs, settings);
    var setup := Setup(strategy, args, flags, ext, sections);
    var attempt := AttemptOf(setup);
    var sourcesProcessed, blocksCreated;
    sources', blocks', sourcesProcessed, blocksCreated := ProcessPending(jobId, attempt, strategy, sources, blocks);
    r := Success(Summary(jobId, sourcesProcessed, blocksCreated));
  }

  /**
   * One turn of the loop of `ingest_job`: a source of this job not yet
   * processed is extracted; on success its blocks are added and it is
   * marked processed.
   */
  method AttemptSource(jobId: nat, attempt: AttemptFn, strategy: string, src: Source)
    returns (src': Source, added: seq<TextBlock>, succeeded: bool)
    ensures src' == AfterAttempt(src, jobId, attempt)
    ensures added == AddedBy(src, jobId, attempt, strategy)
    ensures succeeded == (Pending(src, jobId) && attempt(src).Success?)
  {
    src', added, succeeded := src, [], false;
    if Pending(src, jobId) {
      var outcome := attempt(src);
      if outcome.Success? {
        added := BlocksFor(jobId, src.id, outcome.value, strategy);
        src' := src.(processed := true);
        succeeded := true;
      }
    }
  }

  /** The loop of `ingest_job`: every pending source attempted once, oldest first. */
  method ProcessPending(jobId: nat, attempt: AttemptFn, strategy: string, sources: seq<Source>, blocks: seq<TextBlock>)
    returns (sources': seq<Source>, blocks': seq<TextBlock>, sourcesProcessed: nat, blocksCreated: nat)
    ensures sources' == AfterAll(sources, jobId, attempt)
    ensures blocks' == blocks + NewBlocks(sources, jobId, attempt, strategy)
    ensures sourcesProcessed == Successes(sources, jobId, attempt)
    ensures blocksCreated == |NewBlocks(sources, jobId, attempt, strategy)|
  {
    sourcesProcessed := 0;
    blocksCreated := 0;
    sources' := sources;
    blocks' := blocks;
    for i := 0 to |sources|
      invariant |sources'| == |sources|
      invariant forall j :: 0 <= j < i ==> sources'[j] == AfterAttempt(sources[j], jobId, attempt)
      invariant forall j :: i <= j < |sources| ==> sources'[j] == sources[j]
      invariant blocks' == blocks + NewBlocks(sources[..i], jobId, attempt, strategy)
      invariant sourcesProcessed == Successes(sources[..i], jobId, attempt)
      invariant blocksCreated == |NewBlocks(sources[..i], jobId, attempt, strategy)|
    {
      LoopStep(sources, i, jobId, attempt, strategy);
      var src, added, succeeded := AttemptSource(jobId, attempt, strategy, sources[i]);
      ConcatAssoc(blocks, NewBlocks(sources[..i], jobId, attempt, strategy), added);
      blocks' := blocks' + added;
      blocksCreated := blocksCreated + |added|;
      sources' := sources'[i := src];
      if succeeded {
        sourcesProcessed := sourcesProcessed + 1;
      }
    }
    assert sources[..|sources|] == sources;
  }

  /** What one more source adds to the run over the ones before it. */
  lemma LoopStep(srcs: seq<Source>, i: nat, jobId: nat, attempt: AttemptFn, strategy: string)
    requires i < |srcs|
    ensures NewBlocks(srcs[..i + 1], jobId, attempt, strategy) == NewBlocks(srcs[..i], jobId, attempt, strategy) + AddedBy(srcs[i], jobId, attempt, strategy)
    ensures Successes(srcs[..i + 1], jobId, attempt) == Successes(srcs[..i], jobId, attempt)
      + (if Pending(srcs[i], jobId) && attempt(srcs[i]).Success? then 1 else 0)
  {
    assert srcs[..i + 1][..i] == srcs[..i];
  }

  /**
   * After a run a source is processed exactly when it was processed
   * before or was pending and succeeded; nothing else about it changes,
   * and a failing source stays unprocessed.
   */
  lemma AfterAllSpec(srcs: seq<Source>, jobId: nat, attempt: AttemptFn)
    ensures forall i :: 0 <= i < |srcs| ==>
      var s := AfterAll(srcs, jobId, attempt)[i];
      && s.(processed := srcs[i].processed) == srcs[i]
      && (s.processed <==> srcs[i].processed || (Pending(srcs[i], jobId) && attempt(srcs[i]).Success?))
  {
  }

  /**
   * The new blocks are the successful sources' blocks, each source's
   * numbered 1..k, and there are as many as those sources' segments.
   */
  lemma {:induction false} NewBlocksSpec(srcs: seq<Source>, jobId: nat, attempt: AttemptFn, strategy: string)
    ensures |NewBlocks(srcs, jobId, attempt, strategy)| == SegmentCount(srcs, jobId, attempt)
    ensures forall k :: 0 <= k < |NewBlocks(srcs, jobId, attempt, strategy)| ==>
      var b := NewBlocks(srcs, jobId, attempt, strategy)[k];
      b.jobId == jobId && b.blockOrder >= 1 && b.blockType == "text_block" && !b.triplesExtracted
  {
    if srcs != [] {
      NewBlocksSpec(srcs[..|srcs| - 1], jobId, attempt, strategy);
    }
  }

  /** The number of segments the successful pending sources give. */
  function SegmentCount(srcs: seq<Source>, jobId: nat, attempt: AttemptFn): nat
  {
    if srcs == [] then 0
    else
      var last := srcs[|srcs| - 1];
      SegmentCount(srcs[..|srcs| - 1], jobId, attempt)
        + (if Pending(last, jobId) && attempt(last).Success? then |attempt(last).value| else 0)
  }

  /**
   * A second run right after a first adds no block and marks nothing:
   * what is still pending fails again.
   */
  lemma {:induction false} RetryAddsNothing(srcs: seq<Source>, jobId: nat, attempt: AttemptFn, strategy: string)
    ensures AfterAll(AfterAll(srcs, jobId, attempt), jobId, attempt) == AfterAll(srcs, jobId, attempt)
    ensures NewBlocks(AfterAll(srcs, jobId, attempt), jobId, attempt, strategy) == []
    ensures Successes(AfterAll(srcs, jobId, attempt), jobId, attempt) == 0
  {
    var after := AfterAll(srcs, jobId, attempt);
    assert forall i :: 0 <= i < |after| ==> Pending(after[i], jobId) ==> attempt(after[i]).Failure?;
    NothingPending(after, jobId, attempt, strategy);
  }

  lemma {:induction false} NothingPending(srcs: seq<Source>, jobId: nat, attempt: AttemptFn, strategy: string)
    requires forall i :: 0 <= i < |srcs| ==> Pending(srcs[i], jobId) ==> attempt(srcs[i]).Failure?
    ensures NewBlocks(srcs, jobId, attempt, strategy) == [] && Successes(srcs, jobId, attempt) == 0
  {
    if srcs != [] {
      NothingPending(srcs[..|srcs| - 1], jobId, attempt, strategy);
    }
  }

  // ---------------------------------------------------------------------
  // The loop as written
  // ---------------------------------------------------------------------

  /** The first pending source of the job: what the ordered query returns. */
  function FirstPending(srcs: seq<Source>, jobId: nat): (r: Option<nat>)
    ensures r.None? <==> forall i :: 0 <= i < |srcs| ==> !Pending(srcs[i], jobId)
    ensures r.Some? ==>
      && r.value < |srcs| && Pending(srcs[r.value], jobId)
      && forall i :: 0 <= i < r.value ==> !Pending(srcs[i], jobId)
  {
    if srcs == [] then None
    else if Pending(srcs[0], jobId) then Some(0)
    else
      var t := FirstPending(srcs[1..], jobId);
      if t.Some? then Some(t.value + 1) else None
  }

  /**
   * One turn of the `while True` loop as written: `None` when it breaks;
   * otherwise the sources after the turn, the first pending one marked on
   * success and everything rolled back on failure.
   */
  function StepAsWritten(srcs: seq<Source>, jobId: nat, attempt: AttemptFn): Option<seq<Source>>
  {
    match FirstPending(srcs, jobId)
    case None => None
    case Some(i) =>
      if attempt(srcs[i]).Success? then Some(srcs[i := srcs[i].(processed := true)])
      else Some(srcs)
  }

  /**
   * When the first pending source fails, a turn leaves the sources as they
   * were, so every later turn picks the same source: the loop never ends.
   */
  lemma AsWrittenStuck(srcs: seq<Source>, jobId: nat, attempt: AttemptFn, i: nat)
    requires FirstPending(srcs, jobId) == Some(i) && attempt(srcs[i]).Failure?
    ensures StepAsWritten(srcs, jobId, attempt) == Some(srcs)
    ensures forall n: nat :: RunAsWritten(srcs, jobId, attempt, n) == Some(srcs)
  {
    forall n: nat
      ensures RunAsWritten(srcs, jobId, attempt, n) == Some(srcs)
    {
      StuckRun(srcs, jobId, attempt, n);
    }
  }

  /** `n` turns of the loop as written; `None` once it has broken out. */
  function RunAsWritten(srcs: seq<Source>, jobId: nat, attempt: AttemptFn, n: nat): Option<seq<Source>>
    decreases n
  {
    if n == 0 then Some(srcs)
    else
      match StepAsWritten(srcs, jobId, attempt)
      case None => None
      case Some(next) => RunAsWritten(next, jobId, attempt, n - 1)
  }

  lemma {:induction false} StuckRun(srcs: seq<Source>, jobId: nat, attempt: AttemptFn, n: nat)
    requires StepAsWritten(srcs, jobId, attempt) == Some(srcs)
    ensures RunAsWritten(srcs, jobId, attempt, n) == Some(srcs)
  {
    if n > 0 {
      StuckRun(srcs, jobId, attempt, n - 1);
    }
  }

  /** Any pending source and an unknown strategy: the loop as written never ends. */
  lemma UnknownStrategyNeverEnds(srcs: seq<Source>, jobId: nat, setup: Setup)
    requires setup.strategy == "chapters"
    requires exists i :: 0 <= i < |srcs| && Pending(srcs[i], jobId)
    ensures forall n: nat :: RunAsWritten(srcs, jobId, AttemptOf(setup), n) == Some(srcs)
  {
    var i := FirstPending(srcs, jobId).value;
    AsWrittenStuck(srcs, jobId, AttemptOf(setup), i);
  }

  /** When the first pending source succeeds, a turn as written does what the modelled loop does to it. */
  lemma AsWrittenAgreesOnSuccess(srcs: seq<Source>, jobId: nat, attempt: AttemptFn, i: nat)
    requires FirstPending(srcs, jobId) == Some(i) && attempt(srcs[i]).Success?
    ensures StepAsWritten(srcs, jobId, attempt) == Some(srcs[i := AfterAttempt(srcs[i], jobId, attempt)])
  {
  }
}
