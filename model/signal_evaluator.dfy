/**
 * Signal computation, as the back end and the app share it: the weighted,
 * normalized change between the measurement snapshots before and after a
 * search-query run, and the query for runs still waiting for a signal.
 */
module SignalEvaluation {
  import opened Common
  import opened Sorting

  /** A measurements snapshot: numeric entries by name. */
  type Snapshot = map<string, real>

  /**
   * `SignalConfig`. The weights keep the dict's insertion order; a name
   * without a maximum delta uses 1.0.
   */
  datatype SignalConfig = SignalConfig(
    positiveThreshold: real,
    negativeThreshold: real,
    reputationOnPositive: int,
    reputationOnNegative: int,
    weights: seq<(string, real)>,
    maxDeltas: map<string, real>)

  /** The app's configuration when no environment variable overrides it. */
  const AppSignalDefaults := SignalConfig(
    1.0, -1.0, 10, -20,
    [("passed_hypothesis_count", 1.0), ("mean_confidence", 0.8),
     ("graph_density", 0.5), ("filtered_to_total_ratio", 0.3)],
    map["passed_hypothesis_count" := 100.0, "mean_confidence" := 20.0,
        "graph_density" := 0.2, "filtered_to_total_ratio" := 0.5])

  /** `d.get(name, 0)` on a snapshot. */
  function Read(s: Snapshot, name: string): real
  {
    if name in s then s[name] else 0.0
  }

  function MaxDelta(c: SignalConfig, name: string): real
  {
    if name in c.maxDeltas then c.maxDeltas[name] else 1.0
  }

  /**
   * One measurement's weighted contribution: its change over its maximum
   * expected change, times its weight; nothing when that maximum is not
   * positive.
   */
  function Contribution(prev: Snapshot, curr: Snapshot, name: string, weight: real, maxDelta: real): (r: real)
    ensures maxDelta <= 0.0 ==> r == 0.0
  {
    var raw := Read(curr, name) - Read(prev, name);
    var normalized := if maxDelta > 0.0 then raw / maxDelta else 0.0;
    normalized * weight
  }

  /** The running `total_weighted_delta` after the given weights. */
  function DeltaSum(prev: Snapshot, curr: Snapshot, ws: seq<(string, real)>, c: SignalConfig): real
  {
    if ws == [] then 0.0
    else
      var (name, weight) := ws[|ws| - 1];
      DeltaSum(prev, curr, ws[..|ws| - 1], c) + Contribution(prev, curr, name, weight, MaxDelta(c, name))
  }

  /** `compute_measurement_delta`; `None` or an empty dict gives 0. */
  function MeasurementDelta(prev: Option<Snapshot>, curr: Option<Snapshot>, c: SignalConfig): real
  {
    if prev.None? || prev.value == map[] || curr.None? || curr.value == map[] then 0.0
    else DeltaSum(prev.value, curr.value, c.weights, c)
  }

  /** `compute_measurement_delta`: the accumulator loop over the weights. */
  method ComputeMeasurementDelta(prev: Option<Snapshot>, curr: Option<Snapshot>, c: SignalConfig)
    returns (total: real)
    ensures total == MeasurementDelta(prev, curr, c)
  {
    if prev.None? || prev.value == map[] || curr.None? || curr.value == map[] {
      return 0.0;
    }
    total := 0.0;
    for i := 0 to |c.weights|
      invariant total == DeltaSum(prev.value, curr.value, c.weights[..i], c)
    {
      assert c.weights[..i + 1][..i] == c.weights[..i];
      var (name, weight) := c.weights[i];
      var prevValue := Read(prev.value, name);
      var currValue := Read(curr.value, name);
      var rawDelta := currValue - prevValue;
      var maxDelta := MaxDelta(c, name);
      var normalized := if maxDelta > 0.0 then rawDelta / maxDelta else 0.0;
      total := total + normalized * weight;
    }
    assert c.weights[..|c.weights|] == c.weights;
  }

  /** Comparing a snapshot with itself gives no signal. */
  lemma {:induction false} NoChangeNoDelta(s: Snapshot, ws: seq<(string, real)>, c: SignalConfig)
    ensures DeltaSum(s, s, ws, c) == 0.0
  {
    if ws != [] {
      NoChangeNoDelta(s, ws[..|ws| - 1], c);
    }
  }

  lemma IdenticalSnapshots(s: Option<Snapshot>, c: SignalConfig)
    ensures MeasurementDelta(s, s, c) == 0.0
  {
    if s.Some? {
      NoChangeNoDelta(s.value, c.weights, c);
    }
  }

  lemma ContributionSwap(prev: Snapshot, curr: Snapshot, name: string, weight: real, maxDelta: real)
    ensures Contribution(curr, prev, name, weight, maxDelta) == -Contribution(prev, curr, name, weight, maxDelta)
  {
    if maxDelta > 0.0 {
      var raw := Read(curr, name) - Read(prev, name);
      var q := raw / maxDelta;
      assert q * maxDelta == raw;
      assert (-raw) / maxDelta == -q by {
        assert (-q) * maxDelta == -raw;
      }
    }
  }

  /** Swapping the snapshots negates the signal. */
  lemma {:induction false} DeltaSwap(prev: Snapshot, curr: Snapshot, ws: seq<(string, real)>, c: SignalConfig)
    ensures DeltaSum(curr, prev, ws, c) == -DeltaSum(prev, curr, ws, c)
  {
    if ws != [] {
      DeltaSwap(prev, curr, ws[..|ws| - 1], c);
      var (name, weight) := ws[|ws| - 1];
      ContributionSwap(prev, curr, name, weight, MaxDelta(c, name));
    }
  }

  lemma ContributionNonNeg(prev: Snapshot, curr: Snapshot, name: string, weight: real, maxDelta: real)
    requires Read(curr, name) >= Read(prev, name) && weight >= 0.0
    ensures Contribution(prev, curr, name, weight, maxDelta) >= 0.0
  {
    if maxDelta > 0.0 {
      var raw := Read(curr, name) - Read(prev, name);
      var q := raw / maxDelta;
      assert q * maxDelta == raw;
      assert q >= 0.0;
    }
  }

  /** No measurement fell and no weight is negative: the signal is not negative. */
  lemma {:induction false} GrowthNonNegative(prev: Snapshot, curr: Snapshot, ws: seq<(string, real)>, c: SignalConfig)
    requires forall i :: 0 <= i < |ws| ==> ws[i].1 >= 0.0 && Read(curr, ws[i].0) >= Read(prev, ws[i].0)
    ensures DeltaSum(prev, curr, ws, c) >= 0.0
  {
    if ws != [] {
      GrowthNonNegative(prev, curr, ws[..|ws| - 1], c);
      var (name, weight) := ws[|ws| - 1];
      ContributionNonNeg(prev, curr, name, weight, MaxDelta(c, name));
    }
  }

  // ---------------------------------------------------------------------
  // The window of runs waiting for a signal
  // ---------------------------------------------------------------------

  /** The columns of a `DecisionResult` row the window query reads. */
  datatype DecisionRow = DecisionRow(jobId: int, createdAt: int)

  /** The columns of a `SearchQueryRun` row the window query reads. */
  datatype RunRow = RunRow(id: int, jobId: int, createdAt: int, signalDelta: Option<int>)

  /** The latest decision of the job strictly before `t`. */
  function PreviousDecision(decisions: seq<DecisionRow>, jobId: int, t: int): (r: Option<int>)
    ensures r.None? <==> forall d :: d in decisions && d.jobId == jobId ==> d.createdAt >= t
    ensures r.Some? ==> r.value < t && DecisionRow(jobId, r.value) in decisions
    ensures r.Some? ==> forall d :: d in decisions && d.jobId == jobId && d.createdAt < t ==> d.createdAt <= r.value
  {
    if decisions == [] then None
    else
      var pre := decisions[..|decisions| - 1];
      var d := decisions[|decisions| - 1];
      assert forall x :: x in decisions <==> x in pre || x == d by {
        assert decisions == pre + [d];
      }
      var rest := PreviousDecision(pre, jobId, t);
      if d.jobId == jobId && d.createdAt < t && (rest.None? || d.createdAt > rest.value) then Some(d.createdAt)
      else rest
  }

  /** The job's runs strictly inside the window that have no signal yet. */
  predicate Pending(r: RunRow, jobId: int, after: int, before: int)
  {
    r.jobId == jobId && after < r.createdAt < before && r.signalDelta.None?
  }

  function PendingIn(runs: seq<RunRow>, jobId: int, after: int, before: int): (r: seq<RunRow>)
    ensures forall x :: x in r <==> x in runs && Pending(x, jobId, after, before)
  {
    if runs == [] then []
    else
      var pre := runs[..|runs| - 1];
      var x := runs[|runs| - 1];
      assert forall y :: y in runs <==> y in pre || y == x by {
        assert runs == pre + [x];
      }
      PendingIn(pre, jobId, after, before) + (if Pending(x, jobId, after, before) then [x] else [])
  }

  function CreatedAt(r: RunRow): real { r.createdAt as real }

  /**
   * `find_pending_run_for_evaluation` of the back end: the pending runs
   * between the previous decision and the current one, newest first; none
   * without a previous decision. Rows with equal timestamps keep table order.
   */
  function FindPendingRuns(decisions: seq<DecisionRow>, runs: seq<RunRow>, jobId: int, current: int): seq<RunRow>
  {
    var prev := PreviousDecision(decisions, jobId, current);
    if prev.None? then []
    else SortDesc(PendingIn(runs, jobId, prev.value, current), CreatedAt)
  }

  /**
   * The result holds exactly the job's unsignalled runs strictly after the
   * previous decision and strictly before the current one, each once, newest
   * first; without a previous decision it is empty.
   */
  lemma FindPendingRunsSpec(decisions: seq<DecisionRow>, runs: seq<RunRow>, jobId: int, current: int)
    ensures var r := FindPendingRuns(decisions, runs, jobId, current);
      var prev := PreviousDecision(decisions, jobId, current);
      && (prev.None? ==> r == [])
      && (prev.Some? ==>
            && multiset(r) == multiset(PendingIn(runs, jobId, prev.value, current))
            && (forall x :: x in r <==> x in runs && Pending(x, jobId, prev.value, current))
            && (forall i, j :: 0 <= i < j < |r| ==> r[i].createdAt >= r[j].createdAt))
  {
    var prev := PreviousDecision(decisions, jobId, current);
    if prev.Some? {
      var p := PendingIn(runs, jobId, prev.value, current);
      var r := SortDesc(p, CreatedAt);
      forall x ensures x in r <==> x in p {
        assert x in r <==> x in multiset(r);
        assert x in p <==> x in multiset(p);
      }
      forall i, j | 0 <= i < j < |r| ensures r[i].createdAt >= r[j].createdAt {
        assert CreatedAt(r[i]) >= CreatedAt(r[j]);
      }
    }
  }

  /** The app's `find_pending_run_for_evaluation`: the newest pending run only. */
  function FindPendingRun(decisions: seq<DecisionRow>, runs: seq<RunRow>, jobId: int, current: int): Option<RunRow>
  {
    var all := FindPendingRuns(decisions, runs, jobId, current);
    if all == [] then None else Some(all[0])
  }

  /** The app's choice is a pending run that no other pending run postdates. */
  lemma FindPendingRunSpec(decisions: seq<DecisionRow>, runs: seq<RunRow>, jobId: int, current: int)
    ensures var r := FindPendingRun(decisions, runs, jobId, current);
      var prev := PreviousDecision(decisions, jobId, current);
      && (prev.None? ==> r.None?)
      && (prev.Some? ==> (r.None? <==> forall x :: x in runs ==> !Pending(x, jobId, prev.value, current)))
      && (prev.Some? && r.Some? ==> r.value in runs && Pending(r.value, jobId, prev.value, current))
      && (prev.Some? && r.Some? ==>
            forall x :: x in runs && Pending(x, jobId, prev.value, current) ==> x.createdAt <= r.value.createdAt)
  {
    FindPendingRunsSpec(decisions, runs, jobId, current);
    var all := FindPendingRuns(decisions, runs, jobId, current);
    var prev := PreviousDecision(decisions, jobId, current);
    if prev.Some? {
      NewestFirst(all, runs, jobId, prev.value, current);
    }
  }

  lemma NewestFirst(all: seq<RunRow>, runs: seq<RunRow>, jobId: int, after: int, before: int)
    requires forall x :: x in all <==> x in runs && Pending(x, jobId, after, before)
    requires forall i, j :: 0 <= i < j < |all| ==> all[i].createdAt >= all[j].createdAt
    ensures all == [] <==> forall x :: x in runs ==> !Pending(x, jobId, after, before)
    ensures all != [] ==> forall x :: x in runs && Pending(x, jobId, after, before) ==> x.createdAt <= all[0].createdAt
  {
    if all != [] {
      assert all[0] in all;
      forall x | x in runs && Pending(x, jobId, after, before) ensures x.createdAt <= all[0].createdAt {
        assert x in all;
        var k :| 0 <= k < |all| && all[k] == x;
        if k > 0 {
          assert all[0].createdAt >= all[k].createdAt;
        }
      }
    }
  }
}
