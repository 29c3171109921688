/**
 * `IndirectPathMeasurements`: structural metrics over hypotheses that each
 * stand for one indirect path, derived from the hypothesis list alone. The
 * class-level configuration is an object whose fields `LoadConfig` resets.
 */
module IndirectPaths {
  import opened Common
  import opened Sorting
  import opened IndirectGroups
  import Measurements

  // ---------------------------------------------------------------------
  // Small real-number facts
  // ---------------------------------------------------------------------

  lemma NatRatio(a: nat, b: nat)
    requires b > 0
    ensures a as real / b as real >= 0.0
    ensures a < b ==> a as real / b as real < 1.0
    ensures a as real / b as real == 0.0 <==> a == 0
    ensures a as real / b as real == 1.0 <==> a == b
  {
    var q := a as real / b as real;
    assert q * b as real == a as real;
  }

  lemma RealRatioUnit(x: real, y: real)
    requires 0.0 <= x <= y && y > 0.0
    ensures 0.0 <= x / y <= 1.0
  {
    var q := x / y;
    assert q * y == x;
  }

  // ---------------------------------------------------------------------
  // Intermediate nodes and redundancy
  // ---------------------------------------------------------------------

  /** `path[1:-1]` for a path of more than two nodes, else nothing. */
  function Intermediates(h: PathHyp): (r: seq<string>)
    ensures |PathOf(h)| > 2 ==> |r| == |PathOf(h)| - 2
    ensures |PathOf(h)| <= 2 ==> r == []
    ensures forall x :: x in r ==> x in PathOf(h)
  {
    var p := PathOf(h);
    if |p| > 2 then p[1..|p| - 1] else []
  }

  function AllIntermediates(hs: seq<PathHyp>): (r: seq<string>)
    ensures forall x :: x in r <==> exists h :: h in hs && x in Intermediates(h)
  {
    if hs == [] then []
    else
      var pre := hs[..|hs| - 1];
      assert forall h :: h in hs <==> h in pre || h == hs[|hs| - 1] by {
        assert hs == pre + [hs[|hs| - 1]];
      }
      AllIntermediates(pre) + Intermediates(hs[|hs| - 1])
  }

  /** The `extend` loop of `_compute_redundancy_score`. */
  method CollectIntermediates(hs: seq<PathHyp>) returns (all: seq<string>)
    ensures all == AllIntermediates(hs)
  {
    all := [];
    for i := 0 to |hs|
      invariant all == AllIntermediates(hs[..i])
    {
      assert hs[..i + 1][..i] == hs[..i];
      var path := PathOf(hs[i]);
      if |path| > 2 {
        all := all + path[1..|path| - 1];
      }
    }
    assert hs[..|hs|] == hs;
  }

  /** `_count_unique_intermediates` */
  function UniqueIntermediates(hs: seq<PathHyp>): (r: nat)
    ensures r <= |AllIntermediates(hs)|
    ensures r == 0 <==> AllIntermediates(hs) == []
  {
    var all := AllIntermediates(hs);
    SetOfSize(all);
    assert all != [] ==> all[0] in SetOf(all);
    |SetOf(all)|
  }

  /**
   * `_compute_redundancy_score` over the collected intermediates: the share
   * of occurrences that repeat an earlier one. It is below 1 (one occurrence
   * of each node is never a repeat) and 0 exactly when no node repeats.
   */
  function Redundancy(all: seq<string>): (r: real)
    ensures 0.0 <= r < 1.0
    ensures r == 0.0 <==> Distinct(all)
  {
    if all == [] then 0.0
    else
      SetOfSize(all);
      assert all[0] in SetOf(all);
      var total := |all|;
      var unique := |SetOf(all)|;
      NatRatio(total - unique, total);
      MinReal(1.0, MaxReal(0.0, (total - unique) as real / total as real))
  }

  // ---------------------------------------------------------------------
  // Variance
  // ---------------------------------------------------------------------

  function SumSquares(v: seq<real>, mean: real): (r: real)
    ensures r >= 0.0
  {
    if v == [] then 0.0
    else
      var d := v[|v| - 1] - mean;
      SumSquares(v[..|v| - 1], mean) + d * d
  }

  /** `_compute_variance`: the population variance, 0 for fewer than two values. */
  function Variance(v: seq<real>): (r: real)
    ensures r >= 0.0
    ensures |v| < 2 ==> r == 0.0
  {
    if |v| < 2 then 0.0
    else SumSquares(v, SumReals(v) / |v| as real) / |v| as real
  }

  lemma {:induction false} SumConstant(v: seq<real>, c: real)
    requires forall i :: 0 <= i < |v| ==> v[i] == c
    ensures SumReals(v) == |v| as real * c
    ensures SumSquares(v, c) == 0.0
  {
    if v != [] {
      SumConstant(v[..|v| - 1], c);
    }
  }

  /** A list of equal values has variance 0. */
  lemma VarianceConstant(v: seq<real>, c: real)
    requires forall i :: 0 <= i < |v| ==> v[i] == c
    ensures Variance(v) == 0.0
  {
    SumConstant(v, c);
    if |v| >= 2 {
      assert SumReals(v) / |v| as real == c;
    }
  }

  // ---------------------------------------------------------------------
  // Confidence gap between the two best pairs
  // ---------------------------------------------------------------------

  /** The highest confidence of each pair that has one. */
  function PairMaxima(groups: seq<Group>): (r: seq<real>)
    ensures |r| <= |groups|
  {
    if groups == [] then []
    else
      var g := groups[|groups| - 1];
      var cs := Confidences(g.members);
      PairMaxima(groups[..|groups| - 1]) + (if cs != [] then [Measurements.MaxReals(cs)] else [])
  }

  function Identity(x: real): real { x }

  /**
   * `_compute_confidence_gap`: (top − second) / top over the per-pair maxima
   * sorted in descending order, 0 with fewer than two pairs; a zero top
   * maximum raises.
   */
  function ConfidenceGap(groups: seq<Group>): Outcome<real>
  {
    GapOf(PairMaxima(groups))
  }

  /** The gap over given per-pair maxima. */
  function GapOf(maxima: seq<real>): Outcome<real>
  {
    if |maxima| < 2 then Success(0.0)
    else
      var sorted := SortDesc(maxima, Identity);
      if sorted[0] == 0.0 then Failure("ZeroDivisionError")
      else Success(GapRatio(sorted[0], sorted[1]))
  }

  /** The head of the descending sort is the maximum and the next one is below it. */
  lemma SortedHead(maxima: seq<real>)
    requires |maxima| >= 2
    ensures var sorted := SortDesc(maxima, Identity);
      && sorted[0] == Measurements.MaxReals(maxima)
      && sorted[1] <= sorted[0]
      && sorted[1] in maxima
  {
    var sorted := SortDesc(maxima, Identity);
    var m := Measurements.MaxReals(maxima);
    assert sorted[0] in multiset(sorted);
    assert sorted[1] in multiset(sorted);
    assert m in multiset(maxima);
    var k :| 0 <= k < |sorted| && sorted[k] == m;
    assert Identity(sorted[0]) >= Identity(sorted[k]);
  }

  /** The gap fails exactly when there are two pairs and the top maximum is 0. */
  lemma ConfidenceGapFailure(groups: seq<Group>)
    ensures var maxima := PairMaxima(groups);
      && (|maxima| < 2 ==> ConfidenceGap(groups) == Success(0.0))
      && (ConfidenceGap(groups).Failure? <==> |maxima| >= 2 && Measurements.MaxReals(maxima) == 0.0)
  {
    var maxima := PairMaxima(groups);
    if |maxima| >= 2 {
      SortedHead(maxima);
      assert GapOf(maxima).Failure? <==> SortDesc(maxima, Identity)[0] == 0.0;
    }
  }

  predicate NonNegConfidences(groups: seq<Group>)
  {
    forall g, x :: g in groups && x in Confidences(g.members) ==> x >= 0.0
  }

  /** (top − second) / top: how far the top value leads the second. */
  function GapRatio(top: real, second: real): (r: real)
    requires top != 0.0
    ensures 0.0 < top && second <= top ==> 0.0 <= r
    ensures 0.0 < top && 0.0 <= second <= top ==> r <= 1.0
    ensures r == 0.0 <==> second == top
  {
    var q := (top - second) / top;
    assert q * top == top - second;
    q
  }

  /** With a positive top maximum the gap is defined and non-negative. */
  lemma ConfidenceGapRange(groups: seq<Group>)
    requires |PairMaxima(groups)| >= 2 && Measurements.MaxReals(PairMaxima(groups)) > 0.0
    ensures ConfidenceGap(groups).Success?
    ensures 0.0 <= ConfidenceGap(groups).value
  {
    GapOfRange(PairMaxima(groups));
  }

  lemma GapOfRange(maxima: seq<real>)
    requires |maxima| >= 2 && Measurements.MaxReals(maxima) > 0.0
    ensures GapOf(maxima).Success? && 0.0 <= GapOf(maxima).value
    ensures (forall x :: x in maxima ==> x >= 0.0) ==> GapOf(maxima).value <= 1.0
  {
    SortedHead(maxima);
    var sorted := SortDesc(maxima, Identity);
    assert GapOf(maxima) == Success(GapRatio(sorted[0], sorted[1]));
  }

  /** When no confidence is negative, the gap is also at most 1. */
  lemma ConfidenceGapUnit(groups: seq<Group>)
    requires |PairMaxima(groups)| >= 2 && Measurements.MaxReals(PairMaxima(groups)) > 0.0
    requires NonNegConfidences(groups)
    ensures ConfidenceGap(groups).Success? && ConfidenceGap(groups).value <= 1.0
  {
    PairMaximaNonNeg(groups);
    GapOfRange(PairMaxima(groups));
  }

  lemma {:induction false} PairMaximaNonNeg(groups: seq<Group>)
    requires NonNegConfidences(groups)
    ensures forall x :: x in PairMaxima(groups) ==> x >= 0.0
  {
    if groups != [] {
      var pre := groups[..|groups| - 1];
      assert forall g :: g in pre ==> g in groups;
      PairMaximaNonNeg(pre);
      var cs := Confidences(groups[|groups| - 1].members);
      if cs != [] {
        assert Measurements.MaxReals(cs) in cs;
      }
    }
  }

  // ---------------------------------------------------------------------
  // Diversity and density over path nodes
  // ---------------------------------------------------------------------

  /** Every node of every path, with repeats (`h.get("path", [])`). */
  function AllNodes(hs: seq<PathHyp>): (r: seq<string>)
    ensures forall x :: x in r <==> exists h :: h in hs && x in PathOf(h)
  {
    if hs == [] then []
    else
      var pre := hs[..|hs| - 1];
      assert forall h :: h in hs <==> h in pre || h == hs[|hs| - 1] by {
        assert hs == pre + [hs[|hs| - 1]];
      }
      AllNodes(pre) + PathOf(hs[|hs| - 1])
  }

  /**
   * `_compute_diversity_score`: distinct path nodes over path-node
   * occurrences, in [0, 1], and 1 exactly when no node occurs twice.
   */
  function PathDiversity(hs: seq<PathHyp>): (r: real)
    ensures 0.0 <= r <= 1.0
    ensures AllNodes(hs) == [] ==> r == 0.0
    ensures AllNodes(hs) != [] ==> (r == 1.0 <==> Distinct(AllNodes(hs)))
  {
    var all := AllNodes(hs);
    if |all| == 0 then 0.0
    else
      SetOfSize(all);
      NatRatio(|SetOf(all)|, |all|);
      MinReal(1.0, |SetOf(all)| as real / |all| as real)
  }

  /** The (source, target) pairs with both endpoints truthy. */
  function KeyedPairs(hs: seq<PathHyp>): (r: set<Pair>)
    ensures forall p :: p in r <==> exists h :: h in hs && KeyOf(h) == Some(p)
  {
    set h | h in hs && KeyOf(h).Some? :: KeyOf(h).value
  }

  /**
   * `_compute_graph_density`: keyed pairs over the undirected pair count of
   * the path nodes, capped at 1, and 0 with fewer than two nodes.
   */
  function PathDensity(hs: seq<PathHyp>): (r: real)
    ensures 0.0 <= r <= 1.0
    ensures |SetOf(AllNodes(hs))| < 2 ==> r == 0.0
  {
    var n := |SetOf(AllNodes(hs))|;
    if n < 2 then 0.0
    else
      var maxEdges := HalfPairs(n);
      RealRatioNonNeg(|KeyedPairs(hs)| as real, maxEdges);
      MinReal(1.0, |KeyedPairs(hs)| as real / maxEdges)
  }

  /** `n * (n - 1) / 2` as a float: the number of undirected node pairs. */
  function HalfPairs(n: nat): (r: real)
    requires n >= 2
    ensures r > 0.0
  {
    var m: nat := n - 1;
    assert n * m >= m by {
      assert n * m == (n - 1) * m + m;
    }
    (n * m) as real / 2.0
  }

  lemma RealRatioNonNeg(a: real, d: real)
    requires a >= 0.0 && d > 0.0
    ensures a / d >= 0.0
  {
    var q := a / d;
    assert q * d == a;
  }

  // ---------------------------------------------------------------------
  // Rejection reasons
  // ---------------------------------------------------------------------

  /** The summary key of one rejection reason. */
  function ReasonKey(r: Reason): string
  {
    match r
    case ReasonMissing => "unknown"
    case ReasonNone => "unknown"
    case ReasonDict(keys) => if keys == [] then "unknown" else Join(SortStrings(keys), "|")
    case ReasonList(items) => if items == [] then "unknown" else Join(SortStrings(items), "|")
    case ReasonStr(s) => s
    case ReasonOther(repr) => repr
  }

  /** Keys or items are summarised in sorted order, so their listing order does not matter. */
  lemma ReasonKeyOrderFree(a: seq<string>, b: seq<string>)
    requires multiset(a) == multiset(b)
    ensures ReasonKey(ReasonDict(a)) == ReasonKey(ReasonDict(b))
    ensures ReasonKey(ReasonList(a)) == ReasonKey(ReasonList(b))
  {
    SortedUnique(SortStrings(a), SortStrings(b));
  }

  lemma {:induction false} LexLeAntisymmetric(a: string, b: string)
    requires LexLe(a, b) && LexLe(b, a)
    ensures a == b
  {
    if a != [] && b != [] {
      LexLeAntisymmetric(a[1..], b[1..]);
      assert a == [a[0]] + a[1..] && b == [b[0]] + b[1..];
    }
  }

  lemma {:induction false} LexLeTransitive(a: string, b: string, c: string)
    requires LexLe(a, b) && LexLe(b, c)
    ensures LexLe(a, c)
  {
    if a != [] && b != [] && c != [] && a[0] == b[0] && b[0] == c[0] {
      LexLeTransitive(a[1..], b[1..], c[1..]);
    }
  }

  lemma {:induction false} SortedHeadLeast(s: seq<string>, i: nat)
    requires SortedStrings(s) && i < |s|
    ensures LexLe(s[0], s[i])
  {
    if i == 0 {
      LexLeTotal(s[0], s[0]);
    } else {
      SortedHeadLeast(s, i - 1);
      LexLeTransitive(s[0], s[i - 1], s[i]);
    }
  }

  /** Two sorted lists with the same elements are the same list. */
  lemma {:induction false} SortedUnique(a: seq<string>, b: seq<string>)
    requires SortedStrings(a) && SortedStrings(b) && multiset(a) == multiset(b)
    ensures a == b
  {
    if a != [] {
      SortedHeadsEqual(a, b);
      MultisetTails(a, b);
      SortedTail(a);
      SortedTail(b);
      SortedUnique(a[1..], b[1..]);
      assert a == [a[0]] + a[1..];
      assert b == [b[0]] + b[1..];
    }
  }

  lemma SortedHeadsEqual(a: seq<string>, b: seq<string>)
    requires SortedStrings(a) && SortedStrings(b) && multiset(a) == multiset(b) && a != []
    ensures b != [] && a[0] == b[0]
  {
    assert a[0] in multiset(b);
    assert b != [];
    assert b[0] in multiset(a);
    var i :| 0 <= i < |b| && b[i] == a[0];
    var j :| 0 <= j < |a| && a[j] == b[0];
    SortedHeadLeast(a, j);
    SortedHeadLeast(b, i);
    LexLeAntisymmetric(a[0], b[0]);
  }

  lemma SortedTail(a: seq<string>)
    requires SortedStrings(a) && a != []
    ensures SortedStrings(a[1..])
  {
    assert forall i :: 0 <= i < |a| - 1 ==> a[1..][i] == a[i + 1];
  }

  lemma MultisetTails(a: seq<string>, b: seq<string>)
    requires a != [] && b != [] && a[0] == b[0] && multiset(a) == multiset(b)
    ensures multiset(a[1..]) == multiset(b[1..])
  {
    MultisetTail(a);
    MultisetTail(b);
    assert multiset(a[1..]) == multiset(a) - multiset{a[0]};
  }

  lemma MultisetTail(a: seq<string>)
    requires a != []
    ensures multiset(a) == multiset{a[0]} + multiset(a[1..])
  {
    assert a == [a[0]] + a[1..];
  }

  /** `_aggregate_rejection_reasons` as a left fold: a `defaultdict(int)` counter. */
  function ReasonCounts(hs: seq<PathHyp>): map<string, nat>
  {
    if hs == [] then map[]
    else
      var prev := ReasonCounts(hs[..|hs| - 1]);
      var h := hs[|hs| - 1];
      if h.passedFilter then prev
      else
        var k := ReasonKey(h.filterReason);
        prev[k := (if k in prev then prev[k] else 0) + 1]
  }

  /** Rejected hypotheses whose reason summarises to `k`. */
  function RejectedWithKey(hs: seq<PathHyp>, k: string): nat
  {
    if hs == [] then 0
    else
      var h := hs[|hs| - 1];
      RejectedWithKey(hs[..|hs| - 1], k) + (if !h.passedFilter && ReasonKey(h.filterReason) == k then 1 else 0)
  }

  /**
   * Each summary key counts the rejected hypotheses with that reason, and
   * only keys of some rejected hypothesis appear.
   */
  lemma {:induction false} ReasonCountsSpec(hs: seq<PathHyp>)
    ensures forall k :: k in ReasonCounts(hs) <==> RejectedWithKey(hs, k) > 0
    ensures forall k :: k in ReasonCounts(hs) ==> ReasonCounts(hs)[k] == RejectedWithKey(hs, k)
  {
    if hs != [] {
      ReasonCountsSpec(hs[..|hs| - 1]);
    }
  }

  /** `_aggregate_rejection_reasons`: the counting loop. */
  method AggregateRejectionReasons(hs: seq<PathHyp>) returns (reasons: map<string, nat>)
    ensures reasons == ReasonCounts(hs)
  {
    reasons := map[];
    for i := 0 to |hs|
      invariant reasons == ReasonCounts(hs[..i])
    {
      assert hs[..i + 1][..i] == hs[..i];
      var h := hs[i];
      if !h.passedFilter {
        var key := ReasonKey(h.filterReason);
        var n := if key in reasons then reasons[key] else 0;
        reasons := reasons[key := n + 1];
      }
    }
    assert hs[..|hs|] == hs;
  }

  // ---------------------------------------------------------------------
  // Temporal placeholders
  // ---------------------------------------------------------------------

  type RawPair = (Option<string>, Option<string>)

  /**
   * The previous measurements snapshot as these placeholders read it:
   * `size` is its number of keys (an empty dict is falsy).
   */
  datatype PrevSnapshot = PrevSnapshot(size: nat, passedCount: Option<real>, hypothesisPairs: seq<RawPair>)

  predicate PrevTruthy(prev: Option<PrevSnapshot>)
  {
    prev.Some? && prev.value.size > 0
  }

  /**
   * `_compute_growth_rate`: the relative change of the passed count, the
   * count itself when the previous one was 0, and 0 without a snapshot.
   */
  function GrowthRate(current: nat, prev: Option<PrevSnapshot>): (r: real)
    ensures !PrevTruthy(prev) ==> r == 0.0
    ensures PrevTruthy(prev) && Get(prev.value.passedCount, 0.0) == 0.0 ==> r == current as real
    ensures PrevTruthy(prev) && Get(prev.value.passedCount, 0.0) != 0.0 ==>
      r * Get(prev.value.passedCount, 0.0) == current as real - Get(prev.value.passedCount, 0.0)
  {
    if !PrevTruthy(prev) then 0.0
    else
      var pp := Get(prev.value.passedCount, 0.0);
      if pp == 0.0 then current as real
      else (current as real - pp) / pp
  }

  /** `{(h.get("source"), h.get("target")) for h in hypotheses}` */
  function RawPairs(hs: seq<PathHyp>): set<RawPair>
  {
    set h | h in hs :: (h.source, h.target)
  }

  /**
   * `_compute_stability`: the share of the previous pairs still present,
   * in [0, 1]; 1 or 0 when the snapshot lists no pairs, by whether there
   * are current pairs.
   */
  function Stability(hs: seq<PathHyp>, prev: Option<PrevSnapshot>): (r: real)
    ensures 0.0 <= r <= 1.0
    ensures !PrevTruthy(prev) ==> r == 0.0
    ensures PrevTruthy(prev) && prev.value.hypothesisPairs == [] ==> (r == 1.0 <==> hs != [])
  {
    if !PrevTruthy(prev) then 0.0
    else
      var current := RawPairs(hs);
      var previous := set p | p in prev.value.hypothesisPairs;
      if previous == {} then
        if hs != [] then
          assert (hs[0].source, hs[0].target) in current;
          1.0
        else 0.0
      else
        NatRatio(|current * previous|, |previous|);
        MinReal(1.0, |current * previous| as real / |previous| as real)
  }

  // ---------------------------------------------------------------------
  // Configuration and the measurement record
  // ---------------------------------------------------------------------

  datatype Settings = Settings(enabled: bool, temporal: bool, normFactor: real, gapThreshold: real)

  const DefaultSettings := Settings(true, true, 5.0, 0.2)

  /** The keys `load_config` reads; an absent key takes its default. */
  datatype ConfigDict = ConfigDict(
    enabled: Option<bool>,
    temporal: Option<bool>,
    normFactor: Option<real>,
    gapThreshold: Option<real>)

  function SettingsFrom(d: Option<ConfigDict>): (r: Settings)
    ensures d.None? ==> r == DefaultSettings
    ensures d.Some? && d.value == ConfigDict(None, None, None, None) ==> r == DefaultSettings
  {
    if d.None? then DefaultSettings
    else
      Settings(
        Get(d.value.enabled, true), Get(d.value.temporal, true),
        Get(d.value.normFactor, 5.0), Get(d.value.gapThreshold, 0.2))
  }

  datatype Temporal = Temporal(evidenceGrowthRate: real, hypothesisStability: real, timeSinceLastUpdate: int)

  datatype IndirectMeasurements = IndirectMeasurements(
    totalHypothesisCount: nat,
    passedHypothesisCount: nat,
    passRatio: real,
    uniqueSourceTargetPairs: nat,
    maxPathsPerPair: nat,
    meanPathsPerPair: real,
    dominantPairId: Option<Pair>,
    dominantPairPathRatio: real,
    uniqueIntermediateNodesDominant: nat,
    redundancyScore: real,
    maxNormalizedConfidence: real,
    meanNormalizedConfidence: real,
    confidenceVariance: real,
    dominantConfidenceGap: real,
    isDominantClear: bool,
    diversityScore: real,
    graphDensity: real,
    meanPathLength: real,
    pathLengthVariance: real,
    filterRejectionReasons: map<string, nat>,
    temporal: Option<Temporal>)

  /** `_zero_measurements` */
  const ZeroMeasurements := IndirectMeasurements(
    0, 0, 0.0, 0, 0, 0.0, None, 0.0, 0, 0.0, 0.0, 0.0, 0.0, 0.0, false,
    0.0, 0.0, 0.0, 0.0, map[], Some(Temporal(0.0, 0.0, 0)))

  function PassedOf(hs: seq<PathHyp>): (r: seq<PathHyp>)
    ensures |r| <= |hs|
    ensures forall h :: h in r <==> h in hs && h.passedFilter
  {
    if hs == [] then []
    else
      var pre := hs[..|hs| - 1];
      assert forall h :: h in hs <==> h in pre || h == hs[|hs| - 1] by {
        assert hs == pre + [hs[|hs| - 1]];
      }
      PassedOf(pre) + (if hs[|hs| - 1].passedFilter then [hs[|hs| - 1]] else [])
  }

  function PathLengths(hs: seq<PathHyp>): (r: seq<real>)
    ensures |r| == |hs|
  {
    if hs == [] then [] else PathLengths(hs[..|hs| - 1]) + [|PathOf(hs[|hs| - 1])| as real]
  }

  function Mean(v: seq<real>): real
  {
    if v == [] then 0.0 else SumReals(v) / |v| as real
  }

  /** The two places `compute` divides by a value that may be 0. */
  predicate DividesByZero(s: Settings, hs: seq<PathHyp>)
  {
    (PassedOf(hs) != [] && s.normFactor == 0.0) || ConfidenceGap(GroupsOf(hs)).Failure?
  }

  /**
   * The non-empty case of `compute`, given the results of its three loops
   * (grouping, rejection counting and intermediate collection) and of the
   * dominant-pair scan.
   */
  function Assemble(s: Settings, hs: seq<PathHyp>, prev: Option<PrevSnapshot>, now: int,
                    groups: seq<Group>, dominant: Option<nat>, reasons: map<string, nat>,
                    intermediates: seq<string>): Outcome<IndirectMeasurements>
    requires dominant.Some? ==> dominant.value < |groups| && groups[dominant.value].members != []
  {
    var passed := PassedOf(hs);
    var paths := PathsPerPair(groups);
    var confs := Confidences(passed);
    var gap := ConfidenceGap(groups);
    if (confs != [] && s.normFactor == 0.0) || gap.Failure? then Failure("ZeroDivisionError")
    else
      var members := if dominant.Some? then groups[dominant.value].members else [];
      Success(IndirectMeasurements(
        |hs|, |passed|, if hs != [] then |passed| as real / |hs| as real else 0.0,
        |groups|,
        if paths != [] then MaxOf(paths) else 0,
        if paths != [] then SumInts(paths) as real / |paths| as real else 0.0,
        if dominant.Some? then Some(groups[dominant.value].pair) else None,
        if members != [] then |DistinctPaths(members)| as real / |members| as real else 0.0,
        UniqueIntermediates(members),
        Redundancy(intermediates),
        if confs != [] then MinReal(Measurements.MaxReals(confs) / s.normFactor, 1.0) else 0.0,
        if confs != [] then Mean(confs) / s.normFactor else 0.0,
        Variance(confs),
        gap.value,
        gap.value > s.gapThreshold,
        PathDiversity(hs),
        PathDensity(hs),
        Mean(PathLengths(hs)),
        Variance(PathLengths(hs)),
        reasons,
        if s.temporal then Some(Temporal(GrowthRate(|passed|, prev), Stability(hs, prev), now)) else None))
  }

  /**
   * `compute`: nothing when disabled, the zero record for no hypotheses,
   * otherwise every metric; `now` is the clock reading for
   * `time_since_last_update`.
   */
  function Measure(s: Settings, hs: seq<PathHyp>, prev: Option<PrevSnapshot>, now: int)
    : Outcome<Option<IndirectMeasurements>>
  {
    if !s.enabled then Success(None)
    else if hs == [] then Success(Some(ZeroMeasurements))
    else
      var groups := GroupsOf(hs);
      var r := Assemble(s, hs, prev, now, groups, DominantIndex(groups), ReasonCounts(hs), AllIntermediates(hs));
      if r.Failure? then Failure(r.error) else Success(Some(r.value))
  }

  /** The configuration switches and the division failures. */
  lemma MeasureOutcome(s: Settings, hs: seq<PathHyp>, prev: Option<PrevSnapshot>, now: int)
    ensures !s.enabled ==> Measure(s, hs, prev, now) == Success(None)
    ensures s.enabled && hs == [] ==> Measure(s, hs, prev, now) == Success(Some(ZeroMeasurements))
    ensures Measure(s, hs, prev, now).Failure? <==> s.enabled && hs != [] && DividesByZero(s, hs)
    ensures Measure(s, hs, prev, now).Success? && Measure(s, hs, prev, now).value.Some? ==>
      (Measure(s, hs, prev, now).value.value.temporal.Some? <==> s.temporal || hs == [])
  {
    if s.enabled && hs != [] {
      PassedConfidences(hs);
    }
  }

  lemma PassedConfidences(hs: seq<PathHyp>)
    ensures Confidences(PassedOf(hs)) == [] <==> PassedOf(hs) == []
  {
  }

  /** Counts, the pass ratio and the pair count. */
  lemma MeasureCounts(s: Settings, hs: seq<PathHyp>, prev: Option<PrevSnapshot>, now: int)
    requires s.enabled && hs != [] && !DividesByZero(s, hs)
    ensures var m := Measure(s, hs, prev, now).value.value;
      && m.passedHypothesisCount <= m.totalHypothesisCount == |hs|
      && 0.0 <= m.passRatio <= 1.0
      && m.uniqueSourceTargetPairs == |GroupsOf(hs)|
      && (m.uniqueSourceTargetPairs == 0 <==> forall h :: h in hs ==> KeyOf(h).None?)
  {
    RatioUnit(|PassedOf(hs)|, |hs|);
    PassedConfidences(hs);
    GroupsEmpty(hs);
  }

  /** Every pair reports between 1 and `|hs|` distinct paths. */
  lemma MeasurePaths(s: Settings, hs: seq<PathHyp>, prev: Option<PrevSnapshot>, now: int)
    requires s.enabled && hs != [] && !DividesByZero(s, hs)
    ensures var m := Measure(s, hs, prev, now).value.value;
      && (m.uniqueSourceTargetPairs > 0 ==> 1 <= m.maxPathsPerPair <= |hs|)
      && (m.uniqueSourceTargetPairs == 0 ==> m.maxPathsPerPair == 0)
  {
    PassedConfidences(hs);
    if GroupsOf(hs) != [] {
      MaxPathsBound(hs);
    }
  }

  /** The largest per-pair path count lies between 1 and the number of hypotheses. */
  lemma MaxPathsBound(hs: seq<PathHyp>)
    requires GroupsOf(hs) != []
    ensures 1 <= MaxOf(PathsPerPair(GroupsOf(hs))) <= |hs|
  {
    var groups := GroupsOf(hs);
    var paths := PathsPerPair(groups);
    var m := MaxOf(paths);
    var i :| 0 <= i < |paths| && paths[i] == m;
    GroupsSpec(hs);
    assert groups[i].members == WithPair(hs, groups[i].pair) && groups[i].members != [];
    WithPairBound(hs, groups[i].pair);
    assert paths[i] <= |groups[i].members|;
  }

  /** The rejection summary counts rejected hypotheses by reason. */
  lemma MeasureReasons(s: Settings, hs: seq<PathHyp>, prev: Option<PrevSnapshot>, now: int)
    requires s.enabled && hs != [] && !DividesByZero(s, hs)
    ensures var m := Measure(s, hs, prev, now).value.value;
      forall k :: (k in m.filterRejectionReasons <==> RejectedWithKey(hs, k) > 0)
               && (k in m.filterRejectionReasons ==> m.filterRejectionReasons[k] == RejectedWithKey(hs, k))
  {
    PassedConfidences(hs);
    ReasonCountsSpec(hs);
  }

  lemma {:induction false} WithPairBound(hs: seq<PathHyp>, p: Pair)
    ensures |WithPair(hs, p)| <= |hs|
  {
    if hs != [] {
      WithPairBound(hs[..|hs| - 1], p);
    }
  }

  /** Every score lies in its documented range. */
  lemma MeasureRanges(s: Settings, hs: seq<PathHyp>, prev: Option<PrevSnapshot>, now: int)
    requires s.enabled && hs != [] && !DividesByZero(s, hs)
    ensures var m := Measure(s, hs, prev, now).value.value;
      && 0.0 <= m.redundancyScore < 1.0
      && 0.0 <= m.diversityScore <= 1.0
      && 0.0 <= m.graphDensity <= 1.0
      && 0.0 <= m.dominantPairPathRatio <= 1.0
      && m.maxNormalizedConfidence <= 1.0
  {
    PassedConfidences(hs);
    PathRatioUnit(GroupsOf(hs));
  }

  /** Variances are non-negative, the dominance flag compares the gap, and stability is a fraction. */
  lemma MeasureSpread(s: Settings, hs: seq<PathHyp>, prev: Option<PrevSnapshot>, now: int)
    requires s.enabled && hs != [] && !DividesByZero(s, hs)
    ensures var m := Measure(s, hs, prev, now).value.value;
      && m.confidenceVariance >= 0.0
      && m.pathLengthVariance >= 0.0
      && (m.isDominantClear <==> m.dominantConfidenceGap > s.gapThreshold)
      && (m.temporal.Some? ==> 0.0 <= m.temporal.value.hypothesisStability <= 1.0)
  {
    PassedConfidences(hs);
  }

  /** The dominant pair's path ratio is a fraction. */
  lemma PathRatioUnit(groups: seq<Group>)
    ensures var d := DominantIndex(groups);
      d.Some? && groups[d.value].members != [] ==>
        var members := groups[d.value].members;
        0.0 <= |DistinctPaths(members)| as real / |members| as real <= 1.0
  {
    var d := DominantIndex(groups);
    if d.Some? && groups[d.value].members != [] {
      var members := groups[d.value].members;
      DistinctPathsBound(members);
      RatioUnit(|DistinctPaths(members)|, |members|);
    }
  }

  /**
   * The reported dominant pair is the one `DominantIndex` picks, the first
   * pair of highest mean confidence (`DominantSpec`).
   */
  lemma MeasureDominant(s: Settings, hs: seq<PathHyp>, prev: Option<PrevSnapshot>, now: int)
    requires s.enabled && hs != [] && !DividesByZero(s, hs)
    ensures var m := Measure(s, hs, prev, now).value.value;
      var d := DominantIndex(GroupsOf(hs));
      && (m.dominantPairId.None? <==> d.None?)
      && (d.Some? ==> m.dominantPairId == Some(GroupsOf(hs)[d.value].pair))
  {
    PassedConfidences(hs);
  }

  /** The class-level settings that `load_config` resets. */
  class IndirectPathMeasurements {
    var enabled: bool
    var computeTemporal: bool
    var confidenceNormFactor: real
    var dominanceGapThreshold: real

    function Current(): Settings
      reads this
    {
      Settings(enabled, computeTemporal, confidenceNormFactor, dominanceGapThreshold)
    }

    constructor()
      ensures Current() == DefaultSettings
    {
      enabled := true;
      computeTemporal := true;
      confidenceNormFactor := 5.0;
      dominanceGapThreshold := 0.2;
    }

    /** `load_config`: every key not given goes back to its default. */
    method LoadConfig(d: Option<ConfigDict>)
      modifies this
      ensures Current() == SettingsFrom(d)
    {
      var c := if d.Some? then d.value else ConfigDict(None, None, None, None);
      enabled := Get(c.enabled, true);
      computeTemporal := Get(c.temporal, true);
      confidenceNormFactor := Get(c.normFactor, 5.0);
      dominanceGapThreshold := Get(c.gapThreshold, 0.2);
    }

    /** `compute`, running the grouping, scanning and counting loops. */
    method Compute(hs: seq<PathHyp>, prev: Option<PrevSnapshot>, now: int)
      returns (r: Outcome<Option<IndirectMeasurements>>)
      ensures r == Measure(Current(), hs, prev, now)
    {
      if !enabled {
        return Success(None);
      }
      if hs == [] {
        return Success(Some(ZeroMeasurements));
      }
      var groups := GroupBySourceTarget(hs);
      var dominantPair := FindDominantPair(groups);
      var reasons := AggregateRejectionReasons(hs);
      var intermediates := CollectIntermediates(hs);
      var a := Assemble(Current(), hs, prev, now, groups, DominantIndex(groups), reasons, intermediates);
      r := if a.Failure? then Failure(a.error) else Success(Some(a.value));
    }
  }
}
