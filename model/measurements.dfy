/**
 * The back end's measurement layer: hypothesis populations and their
 * counts, statistics over the passed hypotheses only, the graph density
 * and the growth score against the previous cycle's snapshot.
 */
module Measurements {
  import opened Common
  import opened Hypotheses
  import opened HypothesisFiltering

  // ---------------------------------------------------------------------
  // Populations
  // ---------------------------------------------------------------------

  /** `[h for h in hypotheses if h.get("passed_filter", False)]` */
  function PassedOf(hs: seq<Hypothesis>): (r: seq<Hypothesis>)
    ensures forall h :: h in r <==> h in hs && h.passedFilter
    ensures |r| <= |hs|
  {
    if hs == [] then []
    else
      var last := hs[|hs| - 1];
      assert hs == hs[..|hs| - 1] + [last];
      PassedOf(hs[..|hs| - 1]) + (if last.passedFilter then [last] else [])
  }

  /** `[h for h in hypotheses if not h.get("passed_filter", False)]` */
  function RejectedOf(hs: seq<Hypothesis>): (r: seq<Hypothesis>)
    ensures forall h :: h in r <==> h in hs && !h.passedFilter
  {
    if hs == [] then []
    else
      var last := hs[|hs| - 1];
      assert hs == hs[..|hs| - 1] + [last];
      RejectedOf(hs[..|hs| - 1]) + (if last.passedFilter then [] else [last])
  }

  /** `[h for h in hypotheses if is_low_confidence_rejection(h)]` */
  function PromisingOf(hs: seq<Hypothesis>): (r: seq<Hypothesis>)
    ensures forall h :: h in r <==> h in hs && OnlyEvidenceRejected(h)
  {
    if hs == [] then []
    else
      var last := hs[|hs| - 1];
      assert hs == hs[..|hs| - 1] + [last];
      PromisingOf(hs[..|hs| - 1]) + (if IsLowConfidenceRejection(last) then [last] else [])
  }

  /** Passed and rejected split the hypotheses; every promising one is a rejected one, so there are no more of them. */
  lemma {:induction false} PopulationCounts(hs: seq<Hypothesis>)
    ensures |PassedOf(hs)| + |RejectedOf(hs)| == |hs|
    ensures |PromisingOf(hs)| <= |RejectedOf(hs)|
    ensures forall h :: h in PromisingOf(hs) ==> h in RejectedOf(hs)
  {
    if hs != [] {
      PopulationCounts(hs[..|hs| - 1]);
    }
  }

  // ---------------------------------------------------------------------
  // Statistics of the passed hypotheses
  // ---------------------------------------------------------------------

  /** `min(c / CONFIDENCE_NORMALIZATION_FACTOR, 1.0)` */
  function Normalized(c: int, factor: int): (r: real)
    requires factor != 0
    ensures r <= 1.0
    ensures factor > 0 && c >= 0 ==> 0.0 <= r
  {
    MinReal(c as real / factor as real, 1.0)
  }

  function NormalizedAll(hs: seq<Hypothesis>, factor: int): (r: seq<real>)
    requires factor != 0
    ensures |r| == |hs|
    ensures forall i :: 0 <= i < |hs| ==> r[i] == Normalized(hs[i].confidence, factor)
  {
    if hs == [] then [] else NormalizedAll(hs[..|hs| - 1], factor) + [Normalized(hs[|hs| - 1].confidence, factor)]
  }

  /** `max` of a non-empty list of floats. */
  function MaxReals(s: seq<real>): (m: real)
    requires s != []
    ensures m in s
    ensures forall i :: 0 <= i < |s| ==> s[i] <= m
  {
    if |s| == 1 then s[0]
    else
      var rest := MaxReals(s[..|s| - 1]);
      assert forall i :: 0 <= i < |s| - 1 ==> s[i] == s[..|s| - 1][i];
      MaxReal(rest, s[|s| - 1])
  }

  /** The set of `(source, target)` pairs. */
  function PairsOf(hs: seq<Hypothesis>): (r: set<(string, string)>)
    ensures forall p :: p in r <==> exists i :: 0 <= i < |hs| && (hs[i].source, hs[i].target) == p
  {
    set i | 0 <= i < |hs| :: (hs[i].source, hs[i].target)
  }

  /** `all_nodes_in_paths`: every node of every path. */
  function PathNodes(hs: seq<Hypothesis>): set<string>
  {
    if hs == [] then {} else PathNodes(hs[..|hs| - 1]) + SetOf(hs[|hs| - 1].path)
  }

  /** `sum(len(h.get("path", [])) for h in ...)` */
  function PathNodeTotal(hs: seq<Hypothesis>): nat
  {
    if hs == [] then 0 else PathNodeTotal(hs[..|hs| - 1]) + |hs[|hs| - 1].path|
  }

  /** There are never more distinct path nodes than path entries. */
  lemma {:induction false} PathNodesBound(hs: seq<Hypothesis>)
    ensures |PathNodes(hs)| <= PathNodeTotal(hs)
  {
    if hs != [] {
      var pre := hs[..|hs| - 1];
      PathNodesBound(pre);
      SetOfSize(hs[|hs| - 1].path);
      UnionSize(PathNodes(pre), SetOf(hs[|hs| - 1].path));
    }
  }

  lemma UnionSize(a: set<string>, b: set<string>)
    ensures |a + b| <= |a| + |b|
  {
    assert a + b == a + (b - a);
    assert |b - a| <= |b| by {
      assert b - a <= b;
    }
  }

  /** `diversity_score`: distinct path nodes over all path entries, 0 without any. */
  function Diversity(hs: seq<Hypothesis>): (r: real)
    ensures 0.0 <= r <= 1.0
    ensures PathNodeTotal(hs) == 0 ==> r == 0.0
  {
    var total := PathNodeTotal(hs);
    if total > 0 then
      PathNodesBound(hs);
      RatioUnit(|PathNodes(hs)|, total);
      |PathNodes(hs)| as real / total as real
    else 0.0
  }

  /**
   * `is_dominant_clear` over the normalized confidences in list order:
   * a single one is dominant; otherwise the gap between the first two must
   * exceed `ratio` times a positive first.
   */
  function DominantClear(norms: seq<real>, ratio: real): bool
  {
    if |norms| > 1 then
      var first := norms[0];
      if first > 0.0 then first - norms[1] > ratio * first else false
    else |norms| > 0
  }

  /** With a non-negative ratio, a dominant first hypothesis is strictly more confident than the second. */
  lemma DominantMeansAhead(norms: seq<real>, ratio: real)
    requires ratio >= 0.0 && |norms| >= 2 && DominantClear(norms, ratio)
    ensures norms[0] > norms[1]
  {
    assert ratio * norms[0] >= 0.0;
  }

  // ---------------------------------------------------------------------
  // Graph and growth
  // ---------------------------------------------------------------------

  /** `edges / (n * (n - 1))` for more than one node, else 0. */
  function Density(nodeCount: nat, edgeCount: nat): (r: real)
    ensures nodeCount <= 1 ==> r == 0.0
    ensures nodeCount > 1 ==> r * (nodeCount * (nodeCount - 1)) as real == edgeCount as real
    ensures r >= 0.0
  {
    if nodeCount > 1 then edgeCount as real / (nodeCount * (nodeCount - 1)) as real else 0.0
  }

  /** A previous measurement snapshot; absent keys read as 0. */
  type Snapshot = map<string, real>

  function Read(s: Snapshot, key: string): real
  {
    if key in s then s[key] else 0.0
  }

  /** `growth_score`: the change in distinct path nodes, diversity and passed count; 0.0 without a (non-empty) snapshot. */
  function GrowthScore(uniqueNodes: nat, diversity: real, passed: nat, prev: Option<Snapshot>): real
  {
    if prev.Some? && prev.value != map[] then
      (uniqueNodes as real - Read(prev.value, "unique_nodes_in_paths"))
      + (diversity - Read(prev.value, "diversity_score"))
      + (passed as real - Read(prev.value, "passed_hypothesis_count"))
    else 0.0
  }

  /** Re-measuring the same state against its own snapshot shows no growth. */
  lemma NoGrowthAgainstSelf(uniqueNodes: nat, diversity: real, passed: nat, prev: Snapshot)
    requires prev != map[]
    requires Read(prev, "unique_nodes_in_paths") == uniqueNodes as real
    requires Read(prev, "diversity_score") == diversity
    requires Read(prev, "passed_hypothesis_count") == passed as real
    ensures GrowthScore(uniqueNodes, diversity, passed, Some(prev)) == 0.0
  {
  }

  // ---------------------------------------------------------------------
  // compute_measurements
  // ---------------------------------------------------------------------

  datatype VerificationResult = VerificationResult(found: Option<bool>, kind: Option<string>)

  datatype Computed =
    | VerificationSignals(verificationComplete: bool, verificationFound: bool, verificationType: Option<string>)
    | Signals(
        totalCount: nat,
        passedCount: nat,
        rejectedCount: nat,
        promisingCount: nat,
        filteredToTotalRatio: real,
        maxNormalizedConfidence: real,
        meanNormalizedConfidence: real,
        uniquePairs: nat,
        uniqueNodesInPaths: nat,
        diversityScore: real,
        isDominantClear: bool,
        graphDensity: real,
        nodeCount: nat,
        edgeCount: nat,
        growthScore: real)

  /**
   * `compute_measurements`. `remainingNew` is the job's count of queries in
   * status "new" (read only in verification mode); `normFactor` and
   * `gapRatio` come from the job's `DecisionConfig`. `Failure` is the
   * division by a zero normalization factor.
   */
  function Compute(mode: Option<string>, remainingNew: nat, vr: Option<VerificationResult>,
                   hs: seq<Hypothesis>, nodeCount: nat, edgeCount: nat,
                   normFactor: int, gapRatio: real, prev: Option<Snapshot>): Outcome<Computed>
  {
    if mode == Some("verification") then
      var found := if vr.Some? && vr.value.found.Some? then vr.value.found.value else false;
      var kind := if vr.Some? then vr.value.kind else None;
      Success(VerificationSignals(remainingNew == 0, found, kind))
    else
      var passed := PassedOf(hs);
      if passed != [] && normFactor == 0 then Failure("ZeroDivisionError")
      else
        var ratio := if |hs| > 0 then |passed| as real / |hs| as real else 0.0;
        var norms := if passed != [] then NormalizedAll(passed, normFactor) else [];
        var uniqueNodes := |PathNodes(passed)|;
        var div := Diversity(passed);
        Success(Signals(
          |hs|, |passed|, |RejectedOf(hs)|, |PromisingOf(hs)|, ratio,
          if norms != [] then MaxReals(norms) else 0.0,
          if norms != [] then SumReals(norms) / |norms| as real else 0.0,
          |PairsOf(passed)|, uniqueNodes, div,
          DominantClear(norms, gapRatio),
          Density(nodeCount, edgeCount), nodeCount, edgeCount,
          GrowthScore(uniqueNodes, div, |passed|, prev)))
  }

  /** Outside verification mode: the population counts, the filter ratio and the growth without a snapshot. */
  lemma ComputeCounts(mode: Option<string>, remainingNew: nat, vr: Option<VerificationResult>,
                      hs: seq<Hypothesis>, nodeCount: nat, edgeCount: nat,
                      normFactor: int, gapRatio: real, prev: Option<Snapshot>)
    requires mode != Some("verification") && normFactor > 0
    ensures var r := Compute(mode, remainingNew, vr, hs, nodeCount, edgeCount, normFactor, gapRatio, prev);
      && r.Success? && r.value.Signals?
      && r.value.passedCount + r.value.rejectedCount == r.value.totalCount == |hs|
      && r.value.promisingCount <= r.value.rejectedCount
      && 0.0 <= r.value.filteredToTotalRatio <= 1.0
      && (|hs| == 0 ==> r.value.filteredToTotalRatio == 0.0)
      && (prev.None? ==> r.value.growthScore == 0.0)
  {
    PopulationCounts(hs);
    if |hs| > 0 {
      RatioUnit(|PassedOf(hs)|, |hs|);
    }
  }

  /** Outside verification mode: the statistics over passed hypotheses, and their values when none passed. */
  lemma ComputeStatistics(mode: Option<string>, remainingNew: nat, vr: Option<VerificationResult>,
                          hs: seq<Hypothesis>, nodeCount: nat, edgeCount: nat,
                          normFactor: int, gapRatio: real, prev: Option<Snapshot>)
    requires mode != Some("verification") && normFactor > 0
    ensures var r := Compute(mode, remainingNew, vr, hs, nodeCount, edgeCount, normFactor, gapRatio, prev);
      && r.Success? && r.value.Signals?
      && r.value.maxNormalizedConfidence <= 1.0
      && 0.0 <= r.value.diversityScore <= 1.0
      && r.value.uniquePairs <= r.value.passedCount
      && (r.value.passedCount == 1 ==> r.value.isDominantClear)
      && (r.value.passedCount == 0 ==>
            && r.value.maxNormalizedConfidence == 0.0 && r.value.meanNormalizedConfidence == 0.0
            && r.value.uniquePairs == 0 && r.value.uniqueNodesInPaths == 0
            && r.value.diversityScore == 0.0 && !r.value.isDominantClear)
  {
    var passed := PassedOf(hs);
    PairsBound(passed);
    if passed != [] {
      var norms := NormalizedAll(passed, normFactor);
      assert MaxReals(norms) in norms;
    } else {
      assert PathNodes(passed) == {};
    }
  }

  /** Distinct pairs are at most as many as hypotheses. */
  lemma {:induction false} PairsBound(hs: seq<Hypothesis>)
    ensures |PairsOf(hs)| <= |hs|
  {
    if hs != [] {
      var pre := hs[..|hs| - 1];
      PairsBound(pre);
      var p := (hs[|hs| - 1].source, hs[|hs| - 1].target);
      assert PairsOf(hs) == PairsOf(pre) + {p} by {
        forall q ensures q in PairsOf(hs) <==> q in PairsOf(pre) + {p} {
          if q in PairsOf(hs) && q != p {
            var i :| 0 <= i < |hs| && (hs[i].source, hs[i].target) == q;
            assert pre[i] == hs[i];
          }
          if q in PairsOf(pre) {
            var i :| 0 <= i < |pre| && (pre[i].source, pre[i].target) == q;
            assert hs[i] == pre[i];
          }
        }
      }
    }
  }
}
