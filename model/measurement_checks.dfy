/**
 * `validate_measurements`: sanity checks of an indirect-path measurement
 * dict against the hypotheses it was computed from, each reported as
 * OK, WARN, FAIL or SKIP.
 */
module MeasurementChecks {
  import opened Common
  import opened IndirectGroups
  import opened IndirectPaths

  datatype Status = Ok | Warn | Fail | Skip

  /**
   * The measurement dict as the checks read it: `None` for a missing key
   * (and, for the temporal entries, for a value that is not a number).
   */
  datatype MeasurementView = MeasurementView(
    totalCount: Option<int>,
    passedCount: Option<int>,
    passRatio: Option<real>,
    maxPathsPerPair: Option<int>,
    redundancy: Option<real>,
    maxNormalizedConfidence: Option<real>,
    diversity: Option<real>,
    density: Option<real>,
    pathLengthVariance: Option<real>,
    growthRate: Option<real>,
    stability: Option<real>,
    timestamp: Option<int>)

  datatype Results = Results(
    countMatch: Status,
    passCount: Status,
    passRatio: Status,
    distinctPaths: Status,
    redundancy: Status,
    normalizedConfidence: Status,
    diversity: Status,
    density: Status,
    pathVariance: Status,
    temporalPlaceholders: Status)

  /** `0.0 <= measurements.get(key, -1) <= 1.0` */
  predicate InUnit(x: Option<real>)
  {
    0.0 <= Get(x, -1.0) <= 1.0
  }

  /** A range check: OK inside [0, 1], else `otherwise`. */
  function UnitCheck(x: Option<real>, otherwise: Status): Status
  {
    if InUnit(x) then Ok else otherwise
  }

  // ---------------------------------------------------------------------
  // The check's own grouping: by the raw (source, target) pair
  // ---------------------------------------------------------------------

  function RawKey(h: PathHyp): RawPair
  {
    (h.source, h.target)
  }

  function RawWithKey(hs: seq<PathHyp>, k: RawPair): (r: seq<PathHyp>)
    ensures r == [] <==> forall h :: h in hs ==> RawKey(h) != k
  {
    if hs == [] then []
    else
      var h := hs[|hs| - 1];
      RawWithKey(hs[..|hs| - 1], k) + (if RawKey(h) == k then [h] else [])
  }

  /** The `pair_groups` dict, as a left fold. */
  function RawGroupsOf(hs: seq<PathHyp>): map<RawPair, seq<PathHyp>>
  {
    if hs == [] then map[]
    else
      var prev := RawGroupsOf(hs[..|hs| - 1]);
      var h := hs[|hs| - 1];
      var k := RawKey(h);
      prev[k := (if k in prev then prev[k] else []) + [h]]
  }

  /** Every raw pair that occurs is a key, holding its hypotheses in input order. */
  lemma {:induction false} RawGroupsSpec(hs: seq<PathHyp>)
    ensures forall k :: k in RawGroupsOf(hs) <==> RawWithKey(hs, k) != []
    ensures forall k :: k in RawGroupsOf(hs) ==> RawGroupsOf(hs)[k] == RawWithKey(hs, k)
  {
    if hs != [] {
      RawGroupsSpec(hs[..|hs| - 1]);
    }
  }

  /** Distinct paths of the hypotheses sharing `h`'s raw pair. */
  function PairPaths(all: seq<PathHyp>, h: PathHyp): nat
  {
    |DistinctPaths(RawWithKey(all, RawKey(h)))|
  }

  /** `actual_max_paths`: the most distinct paths any raw pair has, or 0. */
  function MaxPairPaths(all: seq<PathHyp>, hs: seq<PathHyp>): (r: nat)
    ensures forall h :: h in hs ==> PairPaths(all, h) <= r
    ensures r == 0 || exists h :: h in hs && r == PairPaths(all, h)
  {
    if hs == [] then 0
    else
      var pre := hs[..|hs| - 1];
      var h := hs[|hs| - 1];
      assert forall x :: x in hs <==> x in pre || x == h by {
        assert hs == pre + [h];
      }
      Max(MaxPairPaths(all, pre), PairPaths(all, h))
  }

  function ActualMaxPaths(hs: seq<PathHyp>): nat
  {
    MaxPairPaths(hs, hs)
  }

  /** The checks, given the measurement dict and the hypotheses. */
  function Validate(m: MeasurementView, hs: seq<PathHyp>): Results
  {
    var actual := ActualMaxPaths(hs);
    Results(
      if m.totalCount == Some(|hs|) then Ok else Fail,
      if Get(m.passedCount, 0) <= Get(m.totalCount, 0) then Ok else Fail,
      UnitCheck(m.passRatio, Fail),
      if actual > 1 then (if Get(m.maxPathsPerPair, 0) >= actual then Ok else Warn) else Skip,
      UnitCheck(m.redundancy, Fail),
      UnitCheck(m.maxNormalizedConfidence, Warn),
      UnitCheck(m.diversity, Fail),
      UnitCheck(m.density, Fail),
      if Get(m.pathLengthVariance, -1.0) >= 0.0 then Ok else Fail,
      if m.growthRate.Some? && m.stability.Some? && m.timestamp.Some? then Ok else Fail)
  }

  /**
   * The distinct-path check is skipped when no pair has more than one
   * distinct path, and passes exactly when the reported maximum covers
   * every pair's distinct paths; it never fails outright.
   */
  lemma DistinctPathsCheck(m: MeasurementView, hs: seq<PathHyp>)
    ensures var r := Validate(m, hs).distinctPaths;
      && r != Fail
      && (r == Skip <==> forall h :: h in hs ==> PairPaths(hs, h) <= 1)
      && (r == Ok <==> (exists h :: h in hs && PairPaths(hs, h) > 1)
                       && forall h :: h in hs ==> PairPaths(hs, h) <= Get(m.maxPathsPerPair, 0))
  {
  }

  /** The `pair_groups` loop: a dict of lists keyed by the raw pair. */
  method BuildPairGroups(hs: seq<PathHyp>) returns (pairGroups: map<RawPair, seq<PathHyp>>)
    ensures pairGroups == RawGroupsOf(hs)
  {
    pairGroups := map[];
    for i := 0 to |hs|
      invariant pairGroups == RawGroupsOf(hs[..i])
    {
      assert hs[..i + 1][..i] == hs[..i];
      var h := hs[i];
      var key := RawKey(h);
      if key !in pairGroups {
        pairGroups := pairGroups[key := []];
      }
      pairGroups := pairGroups[key := pairGroups[key] + [h]];
    }
    assert hs[..|hs|] == hs;
  }

  /** The `actual_max_paths` loop over the dict's values, in any order. */
  method MaxDistinctPaths(pairGroups: map<RawPair, seq<PathHyp>>) returns (actualMaxPaths: nat)
    ensures forall k :: k in pairGroups ==> |DistinctPaths(pairGroups[k])| <= actualMaxPaths
    ensures actualMaxPaths == 0 || exists k :: k in pairGroups && actualMaxPaths == |DistinctPaths(pairGroups[k])|
  {
    actualMaxPaths := 0;
    var keys := pairGroups.Keys;
    while keys != {}
      invariant keys <= pairGroups.Keys
      invariant forall k :: k in pairGroups.Keys - keys ==> |DistinctPaths(pairGroups[k])| <= actualMaxPaths
      invariant actualMaxPaths == 0 || exists k :: k in pairGroups.Keys - keys && actualMaxPaths == |DistinctPaths(pairGroups[k])|
      decreases |keys|
    {
      var k :| k in keys;
      actualMaxPaths := Max(actualMaxPaths, |DistinctPaths(pairGroups[k])|);
      keys := keys - {k};
    }
  }

  /** Grouping by raw pair, then the maximum of the groups' distinct paths. */
  method ComputeActualMaxPaths(hs: seq<PathHyp>) returns (actualMaxPaths: nat)
    ensures actualMaxPaths == ActualMaxPaths(hs)
  {
    var pairGroups := BuildPairGroups(hs);
    actualMaxPaths := MaxDistinctPaths(pairGroups);
    RawGroupsSpec(hs);
    SameMaximum(hs, actualMaxPaths);
  }

  /** `validate_measurements`: fills the results in order. */
  method ValidateMeasurements(m: MeasurementView, hs: seq<PathHyp>) returns (r: Results)
    ensures r == Validate(m, hs)
  {
    var actualMaxPaths := ComputeActualMaxPaths(hs);

    var countMatch := if m.totalCount == Some(|hs|) then Ok else Fail;
    var passCount := if Get(m.passedCount, 0) <= Get(m.totalCount, 0) then Ok else Fail;
    var passRatio := UnitCheck(m.passRatio, Fail);
    var distinctPaths := Skip;
    if actualMaxPaths > 1 {
      distinctPaths := if Get(m.maxPathsPerPair, 0) >= actualMaxPaths then Ok else Warn;
    }
    var redundancy := UnitCheck(m.redundancy, Fail);
    var normalizedConfidence := UnitCheck(m.maxNormalizedConfidence, Warn);
    var diversity := UnitCheck(m.diversity, Fail);
    var density := UnitCheck(m.density, Fail);
    var pathVariance := if Get(m.pathLengthVariance, -1.0) >= 0.0 then Ok else Fail;
    var temporal := if m.growthRate.Some? && m.stability.Some? && m.timestamp.Some? then Ok else Fail;
    r := Results(countMatch, passCount, passRatio, distinctPaths, redundancy,
                 normalizedConfidence, diversity, density, pathVariance, temporal);
  }

  /** The maximum over the dict's groups is the maximum over the hypotheses' pairs. */
  lemma SameMaximum(hs: seq<PathHyp>, n: nat)
    requires forall k :: k in RawGroupsOf(hs) <==> RawWithKey(hs, k) != []
    requires forall k :: k in RawGroupsOf(hs) ==> RawGroupsOf(hs)[k] == RawWithKey(hs, k)
    requires forall k :: k in RawGroupsOf(hs) ==> |DistinctPaths(RawGroupsOf(hs)[k])| <= n
    requires n == 0 || exists k :: k in RawGroupsOf(hs) && n == |DistinctPaths(RawGroupsOf(hs)[k])|
    ensures n == ActualMaxPaths(hs)
  {
    var a := ActualMaxPaths(hs);
    forall h | h in hs ensures PairPaths(hs, h) <= n {
      assert RawKey(h) in RawGroupsOf(hs);
    }
    if a != 0 {
      var h :| h in hs && a == PairPaths(hs, h);
      assert RawKey(h) in RawGroupsOf(hs);
    }
    if n != 0 {
      var k :| k in RawGroupsOf(hs) && n == |DistinctPaths(RawGroupsOf(hs)[k])|;
      var h := RawWithKey(hs, k)[0];
      assert h in hs && RawKey(h) == k by {
        RawWithKeyMembers(hs, k);
      }
    }
  }

  lemma {:induction false} RawWithKeyMembers(hs: seq<PathHyp>, k: RawPair)
    ensures forall h :: h in RawWithKey(hs, k) ==> h in hs && RawKey(h) == k
  {
    if hs != [] {
      RawWithKeyMembers(hs[..|hs| - 1], k);
    }
  }

  // ---------------------------------------------------------------------
  // The checks against what `compute` produces
  // ---------------------------------------------------------------------

  /** The dict `compute` returns, as the checks read it. */
  function View(m: IndirectMeasurements): MeasurementView
  {
    var t := m.temporal;
    MeasurementView(
      Some(m.totalHypothesisCount), Some(m.passedHypothesisCount), Some(m.passRatio),
      Some(m.maxPathsPerPair), Some(m.redundancyScore), Some(m.maxNormalizedConfidence),
      Some(m.diversityScore), Some(m.graphDensity), Some(m.pathLengthVariance),
      if t.Some? then Some(t.value.evidenceGrowthRate) else None,
      if t.Some? then Some(t.value.hypothesisStability) else None,
      if t.Some? then Some(t.value.timeSinceLastUpdate) else None)
  }

  /** The checks on a record whose fields lie in their ranges. */
  lemma ChecksOfRecord(mm: IndirectMeasurements, hs: seq<PathHyp>)
    requires mm.passedHypothesisCount <= mm.totalHypothesisCount == |hs|
    requires 0.0 <= mm.passRatio <= 1.0 && 0.0 <= mm.redundancyScore <= 1.0
    requires 0.0 <= mm.diversityScore <= 1.0 && 0.0 <= mm.graphDensity <= 1.0
    requires mm.pathLengthVariance >= 0.0
    ensures var r := Validate(View(mm), hs);
      && r.countMatch == Ok && r.passCount == Ok && r.passRatio == Ok
      && r.redundancy == Ok && r.diversity == Ok && r.density == Ok && r.pathVariance == Ok
      && (r.temporalPlaceholders == Ok <==> mm.temporal.Some?)
      && (0.0 <= mm.maxNormalizedConfidence <= 1.0 ==> r.normalizedConfidence == Ok)
  {
  }

  /**
   * Measurements computed from a non-empty hypothesis list pass every count
   * and range check; the temporal check passes exactly when the placeholders
   * are on, and the confidence check too when the normalization factor is
   * positive and no passed confidence is negative.
   */
  lemma ComputedPassesChecks(s: Settings, hs: seq<PathHyp>, prev: Option<PrevSnapshot>, now: int)
    requires s.enabled && hs != [] && !DividesByZero(s, hs)
    ensures var r := Validate(View(Measure(s, hs, prev, now).value.value), hs);
      && r.countMatch == Ok && r.passCount == Ok && r.passRatio == Ok
      && r.redundancy == Ok && r.diversity == Ok && r.density == Ok && r.pathVariance == Ok
      && (r.temporalPlaceholders == Ok <==> s.temporal)
      && (s.normFactor > 0.0 && (forall h :: h in hs && h.passedFilter ==> h.confidence >= 0.0) ==>
            r.normalizedConfidence == Ok)
  {
    MeasureCounts(s, hs, prev, now);
    MeasureRanges(s, hs, prev, now);
    MeasureOutcome(s, hs, prev, now);
    var mm := Measure(s, hs, prev, now).value.value;
    if s.normFactor > 0.0 && (forall h :: h in hs && h.passedFilter ==> h.confidence >= 0.0) {
      MaxNormalizedNonNeg(s, hs);
    }
    ChecksOfRecord(mm, hs);
  }

  lemma MaxNormalizedNonNeg(s: Settings, hs: seq<PathHyp>)
    requires s.normFactor > 0.0 && forall h :: h in hs && h.passedFilter ==> h.confidence >= 0.0
    ensures var confs := Confidences(PassedOf(hs));
      confs != [] ==> Measurements.MaxReals(confs) / s.normFactor >= 0.0
  {
    var confs := Confidences(PassedOf(hs));
    if confs != [] {
      var x := Measurements.MaxReals(confs);
      var i :| 0 <= i < |confs| && confs[i] == x;
      assert PassedOf(hs)[i] in PassedOf(hs);
      RealRatioNonNeg(x, s.normFactor);
    }
  }

  /** With no hypotheses, the zero measurements pass every check but the skipped one. */
  lemma ZeroPassesChecks()
    ensures var r := Validate(View(ZeroMeasurements), []);
      r == Results(Ok, Ok, Ok, Skip, Ok, Ok, Ok, Ok, Ok, Ok)
  {
  }
}
