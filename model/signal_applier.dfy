/**
 * The rows the signal appliers update in place: a search query, one run of
 * it, and a stored paper. Only the columns the appliers read or write are
 * modelled; timestamps are whole seconds.
 */
module SignalStore {
  import opened Common

  class SearchQuery {
    var id: int
    var status: string
    var reputationScore: int
    var updatedAt: int

    /** A query row with the given id and status, no reputation yet. */
    constructor(id0: int, status0: string)
      ensures id == id0 && status == status0 && reputationScore == 0 && updatedAt == 0
    {
      id, status, reputationScore, updatedAt := id0, status0, 0, 0;
    }
  }

  class SearchQueryRun {
    var id: int
    var searchQueryId: int
    var providerUsed: string
    var createdAt: int
    var signalDelta: Option<int>
    var fetchedPaperIds: Option<seq<int>>
    var acceptedPaperIds: seq<int>
    var rejectedPaperIds: seq<int>

    /** A run of the given query, created at the given time, still without a signal. */
    constructor(id0: int, searchQueryId0: int, createdAt0: int)
      ensures id == id0 && searchQueryId == searchQueryId0 && createdAt == createdAt0
      ensures providerUsed == "" && signalDelta == None && fetchedPaperIds == None
      ensures acceptedPaperIds == [] && rejectedPaperIds == []
    {
      id, searchQueryId, providerUsed, createdAt := id0, searchQueryId0, "", createdAt0;
      signalDelta, fetchedPaperIds, acceptedPaperIds, rejectedPaperIds := None, None, [], [];
    }
  }

  class Paper {
    var source: string
    var createdAt: int
    var usedForResearch: bool
  }

  /** The first query with the given id: `.filter(SearchQuery.id == id).first()`. */
  function QueryIndex(queries: seq<SearchQuery>, id: int): (r: Option<nat>)
    reads queries
    ensures r.None? <==> forall k :: 0 <= k < |queries| ==> queries[k].id != id
    ensures r.Some? ==> r.value < |queries| && queries[r.value].id == id
    ensures r.Some? ==> forall k :: 0 <= k < r.value ==> queries[k].id != id
  {
    if queries == [] then None
    else if queries[0].id == id then Some(0)
    else
      var rest := QueryIndex(queries[1..], id);
      if rest.None? then None else Some(rest.value + 1)
  }
}

/** The back end's signal application. */
module SignalApplier {
  import opened Common
  import opened SignalEvaluation
  import opened SignalStore

  /**
   * `classify_signal`: a delta at or above the positive threshold makes the
   * query reusable, one at or below the negative threshold blocks it, and
   * anything between leaves it exhausted.
   */
  function ClassifySignal(delta: real, c: SignalConfig): (r: (int, string))
    ensures r.0 == 1 <==> delta >= c.positiveThreshold
    ensures r.0 == -1 <==> delta < c.positiveThreshold && delta <= c.negativeThreshold
    ensures r.0 == 0 <==> c.negativeThreshold < delta < c.positiveThreshold
    ensures r.1 == (if r.0 == 1 then "reusable" else if r.0 == -1 then "blocked" else "exhausted")
  {
    if delta >= c.positiveThreshold then (1, "reusable")
    else if delta <= c.negativeThreshold then (-1, "blocked")
    else (0, "exhausted")
  }

  /** A larger delta never classifies lower, whatever the thresholds. */
  lemma ClassifyMonotone(d1: real, d2: real, c: SignalConfig)
    requires d1 <= d2
    ensures ClassifySignal(d1, c).0 <= ClassifySignal(d2, c).0
  {
  }

  /** The reputation change a signal brings: none for a zero signal. */
  function ReputationChange(signalDelta: int, c: SignalConfig): int
  {
    if signalDelta > 0 then c.reputationOnPositive
    else if signalDelta < 0 then c.reputationOnNegative
    else 0
  }

  /**
   * With a reward that is not negative and a penalty that is not positive, a
   * larger measurement delta never earns less reputation.
   */
  lemma ReputationMonotone(d1: real, d2: real, c: SignalConfig)
    requires d1 <= d2
    requires c.reputationOnNegative <= 0 <= c.reputationOnPositive
    ensures ReputationChange(ClassifySignal(d1, c).0, c) <= ReputationChange(ClassifySignal(d2, c).0, c)
  {
    ClassifyMonotone(d1, d2, c);
  }

  /** The query's part of a signal: new status, reputation change, update time. */
  method UpdateQuery(query: SearchQuery, signalDelta: int, newStatus: string, c: SignalConfig, now: int)
    modifies query
    ensures query.status == newStatus && query.updatedAt == now && query.id == old(query.id)
    ensures query.reputationScore == old(query.reputationScore) + ReputationChange(signalDelta, c)
  {
    query.status := newStatus;
    if signalDelta > 0 {
      query.reputationScore := query.reputationScore + c.reputationOnPositive;
    } else if signalDelta < 0 {
      query.reputationScore := query.reputationScore + c.reputationOnNegative;
    }
    query.updatedAt := now;
  }

  /**
   * Signal attribution: a positive signal accepts every fetched paper, any
   * other rejects every one; the two lists split the fetched ids.
   */
  function Attribute(signalDelta: int, fetched: Option<seq<int>>): (r: (seq<int>, seq<int>))
    ensures multiset(r.0) + multiset(r.1) == multiset(Get(fetched, []))
    ensures r.0 == [] || r.1 == []
    ensures signalDelta > 0 ==> r.1 == []
    ensures signalDelta <= 0 ==> r.0 == []
  {
    var ids := Get(fetched, []);
    if signalDelta > 0 then (ids, []) else ([], ids)
  }

  /**
   * `apply_signal_result`. `queries` is the query table and `now` the
   * clock. Without a query for the run nothing changes; otherwise the run
   * records the signal and its attribution, and that query its new status,
   * reputation and update time.
   */
  method ApplySignalResult(run: SearchQueryRun, signalDelta: int, newStatus: string,
                           queries: seq<SearchQuery>, c: SignalConfig, now: int)
    modifies run, queries
    ensures old(QueryIndex(queries, run.searchQueryId)).None? ==>
      unchanged(run) && forall q :: q in queries ==> unchanged(q)
    ensures old(QueryIndex(queries, run.searchQueryId)).Some? ==>
      var q := queries[old(QueryIndex(queries, run.searchQueryId)).value];
      && run.signalDelta == Some(signalDelta)
      && (run.acceptedPaperIds, run.rejectedPaperIds) == Attribute(signalDelta, old(run.fetchedPaperIds))
      && q.status == newStatus
      && q.reputationScore == old(q.reputationScore) + ReputationChange(signalDelta, c)
      && q.updatedAt == now
      && q.id == old(q.id)
      && forall other :: other in queries && other != q ==> unchanged(other)
    ensures run.id == old(run.id) && run.searchQueryId == old(run.searchQueryId)
    ensures run.providerUsed == old(run.providerUsed) && run.createdAt == old(run.createdAt)
    ensures run.fetchedPaperIds == old(run.fetchedPaperIds)
  {
    var k := QueryIndex(queries, run.searchQueryId);
    if k.None? {
      return;
    }
    run.signalDelta := Some(signalDelta);
    UpdateQuery(queries[k.value], signalDelta, newStatus, c, now);
    var fetchedIds := Get(run.fetchedPaperIds, []);
    if signalDelta > 0 {
      run.acceptedPaperIds := fetchedIds;
      run.rejectedPaperIds := [];
    } else {
      run.acceptedPaperIds := [];
      run.rejectedPaperIds := fetchedIds;
    }
  }
}

/** The app's signal application: reputation, then papers of a positive run. */
module AppSignalApplier {
  import opened Common
  import opened SignalEvaluation
  import opened SignalStore
  import opened SignalApplier

  /** The window around a run's creation in which its papers were stored. */
  const WindowSeconds := 60

  /** The paper filter: stored by the run's provider within the window. */
  predicate FromRun(p: Paper, provider: string, at: int)
    reads p
  {
    p.source == provider && at - WindowSeconds <= p.createdAt <= at + WindowSeconds
  }

  function Selections(papers: seq<Paper>, provider: string, at: int): (r: seq<bool>)
    reads papers
    ensures |r| == |papers|
    ensures forall j :: 0 <= j < |papers| ==> r[j] == FromRun(papers[j], provider, at)
  {
    seq(|papers|, j requires 0 <= j < |papers| reads papers => FromRun(papers[j], provider, at))
  }

  function Flags(papers: seq<Paper>): (r: seq<bool>)
    reads papers
    ensures |r| == |papers|
    ensures forall j :: 0 <= j < |papers| ==> r[j] == papers[j].usedForResearch
  {
    seq(|papers|, j requires 0 <= j < |papers| reads papers => papers[j].usedForResearch)
  }

  /** The flags after marking every selected paper as used. */
  function Mark(sel: seq<bool>, used: seq<bool>): (r: seq<bool>)
    requires |sel| == |used|
    ensures |r| == |used|
    ensures forall j :: 0 <= j < |used| ==> r[j] == (used[j] || sel[j])
  {
    seq(|used|, j requires 0 <= j < |used| => used[j] || sel[j])
  }

  /** How many selected papers were not yet marked: `marked_count`. */
  function NewlyMarked(sel: seq<bool>, used: seq<bool>): nat
    requires |sel| == |used|
  {
    if sel == [] then 0
    else
      var n := |sel| - 1;
      NewlyMarked(sel[..n], used[..n]) + (if sel[n] && !used[n] then 1 else 0)
  }

  function CountTrue(bs: seq<bool>): nat
  {
    if bs == [] then 0 else CountTrue(bs[..|bs| - 1]) + (if bs[|bs| - 1] then 1 else 0)
  }

  /** The count of marked papers grows by exactly the reported number. */
  lemma {:induction false} MarkedGrowth(sel: seq<bool>, used: seq<bool>)
    requires |sel| == |used|
    ensures CountTrue(Mark(sel, used)) == CountTrue(used) + NewlyMarked(sel, used)
  {
    if sel != [] {
      var n := |sel| - 1;
      MarkedGrowth(sel[..n], used[..n]);
      assert Mark(sel, used)[..n] == Mark(sel[..n], used[..n]);
    }
  }

  /** Marking again changes nothing and reports nothing. */
  lemma {:induction false} MarkIdempotent(sel: seq<bool>, used: seq<bool>)
    requires |sel| == |used|
    ensures Mark(sel, Mark(sel, used)) == Mark(sel, used)
    ensures NewlyMarked(sel, Mark(sel, used)) == 0
  {
    if sel != [] {
      var n := |sel| - 1;
      MarkIdempotent(sel[..n], used[..n]);
      assert Mark(sel, used)[..n] == Mark(sel[..n], used[..n]);
    }
  }

  /** The paper query, then the marking loop over the papers it selects. */
  method MarkPapersUsed(papers: seq<Paper>, provider: string, at: int) returns (markedCount: nat)
    requires forall i, j :: 0 <= i < j < |papers| ==> papers[i] != papers[j]
    modifies papers
    ensures Flags(papers) == Mark(old(Selections(papers, provider, at)), old(Flags(papers)))
    ensures markedCount == NewlyMarked(old(Selections(papers, provider, at)), old(Flags(papers)))
    ensures forall p :: p in papers ==> p.source == old(p.source) && p.createdAt == old(p.createdAt)
  {
    var sel := Selections(papers, provider, at);
    ghost var used := Flags(papers);
    markedCount := 0;
    for i := 0 to |papers|
      invariant forall j :: 0 <= j < |papers| ==>
        papers[j].source == old(papers[j].source) && papers[j].createdAt == old(papers[j].createdAt)
      invariant forall j :: 0 <= j < |papers| ==> papers[j].usedForResearch == (used[j] || (j < i && sel[j]))
      invariant markedCount == NewlyMarked(sel[..i], used[..i])
    {
      assert sel[..i + 1][..i] == sel[..i] && used[..i + 1][..i] == used[..i];
      var paper := papers[i];
      if sel[i] && !paper.usedForResearch {
        paper.usedForResearch := true;
        markedCount := markedCount + 1;
      }
    }
    assert sel[..|papers|] == sel && used[..|papers|] == used;
    assert forall j :: 0 <= j < |papers| ==> Flags(papers)[j] == Mark(sel, used)[j];
  }

  /**
   * The app's `apply_signal_result`: as the back end's without the
   * accepted/rejected attribution, and a positive signal then marks the
   * papers of the run's provider stored within a minute of the run.
   * `papers` is the paper table; the number of newly marked papers is
   * returned.
   */
  method AppApplySignalResult(run: SearchQueryRun, signalDelta: int, newStatus: string,
                              queries: seq<SearchQuery>, papers: seq<Paper>, c: SignalConfig, now: int)
    returns (markedCount: nat)
    requires forall i, j :: 0 <= i < j < |papers| ==> papers[i] != papers[j]
    modifies run, queries, papers
    ensures old(QueryIndex(queries, run.searchQueryId)).None? ==>
      unchanged(run) && markedCount == 0 && (forall q :: q in queries ==> unchanged(q))
        && forall p :: p in papers ==> unchanged(p)
    ensures old(QueryIndex(queries, run.searchQueryId)).Some? ==>
      var q := queries[old(QueryIndex(queries, run.searchQueryId)).value];
      && run.signalDelta == Some(signalDelta)
      && q.status == newStatus
      && q.reputationScore == old(q.reputationScore) + ReputationChange(signalDelta, c)
      && q.updatedAt == now
      && forall other :: other in queries && other != q ==> unchanged(other)
    ensures old(QueryIndex(queries, run.searchQueryId)).Some? && signalDelta > 0 ==>
      && Flags(papers) == Mark(old(Selections(papers, run.providerUsed, run.createdAt)), old(Flags(papers)))
      && markedCount == NewlyMarked(old(Selections(papers, run.providerUsed, run.createdAt)), old(Flags(papers)))
    ensures old(QueryIndex(queries, run.searchQueryId)).Some? && signalDelta <= 0 ==>
      markedCount == 0 && forall p :: p in papers ==> unchanged(p)
    ensures run.providerUsed == old(run.providerUsed) && run.createdAt == old(run.createdAt)
    ensures run.searchQueryId == old(run.searchQueryId) && run.fetchedPaperIds == old(run.fetchedPaperIds)
    ensures run.acceptedPaperIds == old(run.acceptedPaperIds) && run.rejectedPaperIds == old(run.rejectedPaperIds)
  {
    markedCount := 0;
    var k := QueryIndex(queries, run.searchQueryId);
    if k.None? {
      return;
    }
    run.signalDelta := Some(signalDelta);
    UpdateQuery(queries[k.value], signalDelta, newStatus, c, now);
    if signalDelta > 0 {
      markedCount := MarkPapersUsed(papers, run.providerUsed, run.createdAt);
    }
  }
}
