/**
 * The rule-based decision provider of the back end: an ordered chain of
 * guarded returns over the measurements of one cycle, the configured
 * thresholds and the growth scores of the job's recent decisions; and the
 * reply parsing of the LLM provider, shared with the older app provider.
 */
module DecisionProviders {
  import opened Common
  import opened DecisionSpace

  function AbsReal(x: real): (r: real)
    ensures r >= 0.0 && (r == x || r == -x)
  {
    if x < 0.0 then -x else x
  }

  /** The measurement dict a provider reads; `None` is an absent key. */
  datatype Measurements = Measurements(
    totalHypothesisCount: Option<int>,
    passedHypothesisCount: Option<int>,
    promisingHypothesisCount: Option<int>,
    growthScore: Option<real>,
    maxNormalizedConfidence: Option<real>,
    isDominantClear: Option<bool>,
    maxPathsPerPair: Option<int>,
    meanPathLength: Option<real>,
    graphDensity: Option<real>,
    diversityScore: Option<real>,
    evidenceGrowthRate: Option<real>,
    uniqueSourceTargetPairs: Option<int>)

  /** The thresholds of `DecisionConfig` the rules consult. */
  datatype Config = Config(
    highConfidence: real,
    lowDiversityPairs: int,
    diversityRatio: real,
    sparseDensity: real,
    pathSupport: int,
    stabilityCycles: int,
    minAbsoluteGrowth: real,
    minRelativeGrowth: real)

  // ---------------------------------------------------------------------
  // The rules, in the order `decide` consults them
  // ---------------------------------------------------------------------

  /** Rule 1: neither a passed nor a promising hypothesis. */
  predicate Insufficient(m: Measurements)
  {
    Get(m.passedHypothesisCount, 0) == 0 && Get(m.promisingHypothesisCount, 0) == 0
  }

  /** `max(0, STABILITY_CYCLE_THRESHOLD - 1)`: how many earlier cycles the window needs. */
  function WindowSize(c: Config): nat
  {
    if c.stabilityCycles - 1 > 0 then c.stabilityCycles - 1 else 0
  }

  /**
   * Rule 2: a full window of earlier cycles is known (there is a job) and
   * neither it nor the current cycle shows absolute growth above the
   * threshold.
   */
  predicate StagnantWindow(m: Measurements, c: Config, history: Option<seq<real>>)
  {
    && history.Some?
    && |history.value| == WindowSize(c)
    && AbsReal(Get(m.growthScore, 0.0)) <= c.minAbsoluteGrowth
    && forall i :: 0 <= i < |history.value| ==> AbsReal(history.value[i]) <= c.minAbsoluteGrowth
  }

  /** Rule 3: the current cycle grew. */
  predicate Growing(m: Measurements, c: Config)
  {
    Get(m.growthScore, 0.0) > c.minAbsoluteGrowth
  }

  predicate HasIndirectPaths(m: Measurements)
  {
    Get(m.meanPathLength, 1.0) > 1.0
  }

  /** Rule 4: indirect paths, enough path support, a clear dominant and high confidence. */
  predicate ConfidentHalt(m: Measurements, c: Config)
  {
    && HasIndirectPaths(m)
    && Get(m.maxPathsPerPair, 0) >= c.pathSupport
    && Get(m.isDominantClear, false)
    && Get(m.maxNormalizedConfidence, 0.0) >= c.highConfidence
  }

  /** Rule 5: indirect paths, minimal relative growth, weak path support, a dense and diverse graph. */
  predicate StableHalt(m: Measurements, c: Config)
  {
    && HasIndirectPaths(m)
    && AbsReal(Get(m.evidenceGrowthRate, 0.0)) <= c.minRelativeGrowth
    && Get(m.maxPathsPerPair, 0) < c.pathSupport
    && Get(m.graphDensity, 0.0) > c.sparseDensity
    && Get(m.diversityScore, 0.0) > c.diversityRatio
  }

  /** Rule 6: few pairs, low diversity or a sparse graph. */
  predicate NeedsMoreData(m: Measurements, c: Config)
  {
    || Get(m.uniqueSourceTargetPairs, 0) < c.lowDiversityPairs
    || Get(m.diversityScore, 0.0) < c.diversityRatio
    || Get(m.graphDensity, 0.0) < c.sparseDensity
  }

  /**
   * `RuleBasedDecisionProvider.decide`. `history` is `None` when the
   * context names no job, and otherwise the growth scores of the job's
   * most recent decisions, newest first, at most `WindowSize` of them.
   */
  function Decide(m: Measurements, c: Config, history: Option<seq<real>>): (r: Decision)
    ensures r in {InsufficientSignal, HaltNoHypothesis, StrategicDownloadTargeted, HaltConfident, FetchMoreLiterature}
  {
    if Insufficient(m) then InsufficientSignal
    else if StagnantWindow(m, c, history) then HaltNoHypothesis
    else if Growing(m, c) then StrategicDownloadTargeted
    else if ConfidentHalt(m, c) then HaltConfident
    else if StableHalt(m, c) then HaltNoHypothesis
    else if NeedsMoreData(m, c) then FetchMoreLiterature
    else InsufficientSignal
  }

  /** Having neither a passed nor a promising hypothesis decides before any other rule. */
  lemma InsufficientFirst(m: Measurements, c: Config, history: Option<seq<real>>)
    requires Insufficient(m)
    ensures Decide(m, c, history) == InsufficientSignal
  {
  }

  /**
   * Growth above the threshold always yields a targeted download once there
   * is some signal, even when every halting condition also holds: a window
   * can only be stagnant when the current growth is small.
   */
  lemma GrowthBeforeHalts(m: Measurements, c: Config, history: Option<seq<real>>)
    requires !Insufficient(m) && Growing(m, c)
    ensures Decide(m, c, history) == StrategicDownloadTargeted
  {
    assert !StagnantWindow(m, c, history);
  }

  /** Each decision, by the conditions that produce it; the two halting rules and the two insufficient outcomes combine. */
  lemma DecideSpec(m: Measurements, c: Config, history: Option<seq<real>>)
    ensures var r := Decide(m, c, history);
      && (r == HaltConfident <==> !Insufficient(m) && !StagnantWindow(m, c, history) && !Growing(m, c) && ConfidentHalt(m, c))
      && (r == HaltNoHypothesis <==>
            !Insufficient(m) && (StagnantWindow(m, c, history) || (!Growing(m, c) && !ConfidentHalt(m, c) && StableHalt(m, c))))
      && (r == FetchMoreLiterature <==>
            !Insufficient(m) && !StagnantWindow(m, c, history) && !Growing(m, c) && !ConfidentHalt(m, c)
            && !StableHalt(m, c) && NeedsMoreData(m, c))
      && (r == InsufficientSignal <==>
            Insufficient(m) || (!StagnantWindow(m, c, history) && !Growing(m, c) && !ConfidentHalt(m, c)
                                && !StableHalt(m, c) && !NeedsMoreData(m, c)))
  {
  }

  /** A halt on stability needs weak path support, a confident halt strong support: the two never both apply. */
  lemma HaltRulesExclusive(m: Measurements, c: Config)
    ensures !(ConfidentHalt(m, c) && StableHalt(m, c))
  {
  }

  /** The growth of a recent decision: its snapshot's "growth_score", 0.0 when the snapshot or the key is missing. */
  function SnapshotGrowth(snapshot: Option<map<string, real>>): real
  {
    if snapshot.Some? && "growth_score" in snapshot.value then snapshot.value["growth_score"] else 0.0
  }

  /**
   * The loop building `growth_history` from the job's most recent decision
   * records, newest first, limited to the window size.
   */
  method GrowthHistory(recent: seq<Option<map<string, real>>>, c: Config) returns (history: seq<real>)
    ensures |history| == Min(|recent|, WindowSize(c))
    ensures forall i :: 0 <= i < |history| ==> history[i] == SnapshotGrowth(recent[i])
  {
    var records := if |recent| <= WindowSize(c) then recent else recent[..WindowSize(c)];
    history := [];
    for i := 0 to |records|
      invariant |history| == i
      invariant forall j :: 0 <= j < i ==> history[j] == SnapshotGrowth(records[j])
    {
      history := history + [SnapshotGrowth(records[i])];
    }
  }

  // ---------------------------------------------------------------------
  // Parsing an LLM reply
  // ---------------------------------------------------------------------

  /** The first label of `labels` that occurs in `text`. */
  function FirstContained(labels: seq<string>, text: string): (r: Option<string>)
    ensures r.Some? ==> r.value in labels && Contains(text, r.value)
    ensures r.None? <==> forall v :: v in labels ==> !Contains(text, v)
  {
    if labels == [] then None
    else if Contains(text, labels[0]) then Some(labels[0])
    else FirstContained(labels[1..], text)
  }

  /** `order` is an iteration order of `all_decisions()`, whose members are the decisions' values. */
  ghost predicate EnumeratesLabels(order: seq<string>)
  {
    forall v :: v in order <==> exists d :: Value(d) == v
  }

  /** Looking up a decision's own value finds that decision. */
  lemma LabelLookup(name: string)
    requires exists d :: Value(d) == name
    ensures FromString(name).Success? && Value(FromString(name).value) == name
  {
    var d :| Value(d) == name;
    RoundTrip(d);
  }

  /**
   * The reply handling of `LLMDecisionProvider.decide`: `reply` is the
   * generated text or the exception, `order` the set iteration order of the
   * labels, and `fallback` the safe default the provider returns on an
   * empty reply, a reply naming no label, or an exception.
   */
  function ParseReply(reply: Outcome<string>, order: seq<string>, fallback: Decision): (r: Decision)
    requires EnumeratesLabels(order)
    ensures r != fallback ==> reply.Success? && Contains(Lower(Strip(reply.value)), Value(r))
    ensures reply.Failure? ==> r == fallback
    ensures reply.Success? && Lower(Strip(reply.value)) == [] ==> r == fallback
    ensures reply.Success? && (forall d :: !Contains(Lower(Strip(reply.value)), Value(d))) ==> r == fallback
  {
    match reply
    case Failure(_) => fallback
    case Success(generated) =>
      var text := Lower(Strip(generated));
      if text == [] then fallback
      else
        match FirstContained(order, text)
        case None => fallback
        case Some(name) =>
          LabelLookup(name);
          FromString(name).value
  }

  /** When `text` contains exactly one label, the scan finds that label. */
  lemma FirstContainedUnique(order: seq<string>, text: string, d: Decision)
    requires EnumeratesLabels(order)
    requires Contains(text, Value(d))
    requires forall e :: e != d ==> !Contains(text, Value(e))
    ensures FirstContained(order, text) == Some(Value(d))
  {
    var found := FirstContained(order, text);
    assert Value(d) in order;
    var e :| Value(e) == found.value;
    assert e == d;
  }

  /** When the reply names exactly one label, that label is the decision. */
  lemma ParseReplyUnique(reply: Outcome<string>, order: seq<string>, fallback: Decision, d: Decision)
    requires EnumeratesLabels(order)
    requires reply.Success? && Contains(Lower(Strip(reply.value)), Value(d))
    requires forall e :: e != d ==> !Contains(Lower(Strip(reply.value)), Value(e))
    ensures ParseReply(reply, order, fallback) == d
  {
    var text := Lower(Strip(reply.value));
    ValueIsLabel(d);
    FirstContainedUnique(order, text, d);
    RoundTrip(d);
    assert text != [] by {
      var i :| 0 <= i <= |text| - |Value(d)| && OccursAt(text, Value(d), i);
    }
    assert ParseReply(reply, order, fallback) == FromString(Value(d)).value;
  }

  /** The back end's provider falls back to INSUFFICIENT_SIGNAL. */
  function LlmDecide(reply: Outcome<string>, order: seq<string>): (r: Decision)
    requires EnumeratesLabels(order)
    ensures r != InsufficientSignal ==> reply.Success? && Contains(Lower(Strip(reply.value)), Value(r))
  {
    ParseReply(reply, order, InsufficientSignal)
  }
}
