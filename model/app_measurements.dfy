/**
 * The app's measurement layer: the same populations and passed-only
 * statistics as the back end, plus raw confidence statistics, viability
 * and the dominant hypothesis index, and no promising count or growth.
 */
module AppMeasurements {
  import opened Common
  import opened Hypotheses
  import opened Measurements

  /** `[h.get("confidence", 0) for h in passed_hypotheses]` */
  function Confidences(hs: seq<Hypothesis>): (r: seq<int>)
    ensures |r| == |hs|
    ensures forall i :: 0 <= i < |hs| ==> r[i] == hs[i].confidence
  {
    if hs == [] then [] else Confidences(hs[..|hs| - 1]) + [hs[|hs| - 1].confidence]
  }

  /** The mean of a list never exceeds its maximum. */
  lemma {:induction false} SumAtMostMax(s: seq<int>, m: int)
    requires forall i :: 0 <= i < |s| ==> s[i] <= m
    ensures SumInts(s) <= |s| * m
  {
    if s != [] {
      SumAtMostMax(s[..|s| - 1], m);
    }
  }

  datatype AppComputed = AppComputed(
    totalCount: nat,
    passedCount: nat,
    rejectedCount: nat,
    filteredToTotalRatio: real,
    hasAnyViableHypothesis: bool,
    maxConfidence: int,
    meanConfidence: real,
    maxNormalizedConfidence: real,
    meanNormalizedConfidence: real,
    uniquePairs: nat,
    diversityScore: real,
    isDominantClear: bool,
    dominantHypothesisIndex: int,
    graphDensity: real,
    nodeCount: nat,
    edgeCount: nat)

  /**
   * `compute_measurements` of the app; `normFactor` and `gapRatio` come from
   * the process-wide `DecisionConfig`. `Failure` is the division by a zero
   * normalization factor.
   */
  function AppCompute(hs: seq<Hypothesis>, nodeCount: nat, edgeCount: nat, normFactor: int, gapRatio: real)
    : Outcome<AppComputed>
  {
    var passed := PassedOf(hs);
    if passed != [] && normFactor == 0 then Failure("ZeroDivisionError")
    else
      var ratio := if |hs| > 0 then |passed| as real / |hs| as real else 0.0;
      var cs := Confidences(passed);
      var norms := if passed != [] then NormalizedAll(passed, normFactor) else [];
      Success(AppComputed(
        |hs|, |passed|, |RejectedOf(hs)|, ratio, |hs| > 0,
        if cs != [] then MaxOf(cs) else 0,
        if cs != [] then SumInts(cs) as real / |cs| as real else 0.0,
        if norms != [] then MaxReals(norms) else 0.0,
        if norms != [] then SumReals(norms) / |norms| as real else 0.0,
        |PairsOf(passed)|, Diversity(passed),
        DominantClear(norms, gapRatio),
        if passed != [] then 0 else -1,
        Density(nodeCount, edgeCount), nodeCount, edgeCount))
  }

  /** Counts, viability, the pass ratio and the dominant index. */
  lemma AppComputeCounts(hs: seq<Hypothesis>, nodeCount: nat, edgeCount: nat, normFactor: int, gapRatio: real)
    requires normFactor > 0
    ensures var r := AppCompute(hs, nodeCount, edgeCount, normFactor, gapRatio);
      && r.Success?
      && r.value.passedCount + r.value.rejectedCount == r.value.totalCount == |hs|
      && (r.value.hasAnyViableHypothesis <==> |hs| > 0)
      && 0.0 <= r.value.filteredToTotalRatio <= 1.0
      && (|hs| == 0 ==> r.value.filteredToTotalRatio == 0.0)
      && (r.value.dominantHypothesisIndex == 0 <==> r.value.passedCount > 0)
      && (r.value.dominantHypothesisIndex == -1 <==> r.value.passedCount == 0)
  {
    PopulationCounts(hs);
    if |hs| > 0 {
      RatioUnit(|PassedOf(hs)|, |hs|);
    }
  }

  /**
   * The confidence statistics are taken over passed hypotheses only: the
   * maximum is attained by one of them and bounds all of them, the mean is
   * at most the maximum, and both are zero when nothing passed.
   */
  lemma AppComputeConfidence(hs: seq<Hypothesis>, nodeCount: nat, edgeCount: nat, normFactor: int, gapRatio: real)
    requires normFactor > 0
    ensures var r := AppCompute(hs, nodeCount, edgeCount, normFactor, gapRatio);
      && r.Success?
      && r.value.maxNormalizedConfidence <= 1.0
      && (r.value.passedCount == 0 ==> r.value.maxConfidence == 0 && r.value.meanConfidence == 0.0)
      && (forall h :: h in hs && h.passedFilter ==> h.confidence <= r.value.maxConfidence)
      && (r.value.passedCount > 0 ==> exists h :: h in hs && h.passedFilter && h.confidence == r.value.maxConfidence)
      && r.value.meanConfidence <= r.value.maxConfidence as real
  {
    var passed := PassedOf(hs);
    var cs := Confidences(passed);
    if cs != [] {
      var m := MaxOf(cs);
      var norms := NormalizedAll(passed, normFactor);
      assert MaxReals(norms) in norms;
      forall h | h in hs && h.passedFilter ensures h.confidence <= m {
        var i :| 0 <= i < |passed| && passed[i] == h;
        assert cs[i] == h.confidence;
      }
      var j :| 0 <= j < |cs| && cs[j] == m;
      assert passed[j] in hs && passed[j].passedFilter;
      SumAtMostMax(cs, m);
      MeanAtMost(SumInts(cs), |cs|, m);
    }
  }

  lemma MeanAtMost(sum: int, n: nat, m: int)
    requires n > 0 && sum <= n * m
    ensures sum as real / n as real <= m as real
  {
    var q := sum as real / n as real;
    assert q * n as real == sum as real;
    if q > m as real {
      assert q * n as real > m as real * n as real;
    }
  }
}
