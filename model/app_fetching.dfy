/**
 * The application's FETCH_MORE stage: pick the best passed hypotheses by
 * their query's reputation, fetch papers for each through the domain's
 * provider, deduplicate and persist them, create an ingestion source per
 * paper abstract, record a run per query that fetched papers, and report
 * totals.
 *
 * The search query each hypothesis gets is the parameter `queryFor`,
 * whether a query is due to run is `shouldRun`, the provider's network call
 * is `fetch`, and what deduplication and persistence make of a candidate is
 * `judge`.
 */
module AppFetching {
  import opened Common
  import QO = QueryOrchestrator
  import D = DuplicateDetection
  import BF = BackendFetching
  import P = FetchProviders
  import S = Sorting

  /** The part of a hypothesis the stage reads. */
  datatype Hypothesis = Hypothesis(id: nat, passedFilter: bool)

  /** A selection candidate: the hypothesis and its search query. */
  type Pick = (Hypothesis, QO.SearchQuery)

  /** A `SearchQueryRun` as this stage records it. */
  datatype Run = Run(querySignature: string, jobId: nat, provider: string, reason: string,
                     fetchedCount: nat, accepted: nat, rejected: nat)

  /** The dictionary `execute_fetch_more` returns. */
  datatype Summary = Summary(queriesExecuted: nat, papersFetched: nat, papersAccepted: nat,
                             papersRejected: nat, runs: seq<Run>, sources: seq<BF.Source>)

  /** The summary of a stage with nothing selected. */
  const EmptySummary := Summary(0, 0, 0, 0, [], [])

  // ---------------------------------------------------------------------
  // Selection (`select_top_hypotheses`)
  // ---------------------------------------------------------------------

  /** The passed hypotheses with their queries, in input order. */
  function PassedPicks(hyps: seq<Hypothesis>, queryFor: Hypothesis -> QO.SearchQuery): (r: seq<Pick>)
    ensures |r| <= |hyps|
    ensures forall k :: 0 <= k < |r| ==> r[k].0.passedFilter && r[k].0 in hyps && r[k].1 == queryFor(r[k].0)
  {
    if hyps == [] then []
    else
      var rest := PassedPicks(hyps[..|hyps| - 1], queryFor);
      var h := hyps[|hyps| - 1];
      assert forall x :: x in hyps[..|hyps| - 1] ==> x in hyps;
      rest + (if h.passedFilter then [(h, queryFor(h))] else [])
  }

  /**
   * The sort key: Python orders by (-reputation, 0 if new else 1)
   * ascending; doubling the reputation and adding one for a new query gives
   * the same order, descending.
   */
  function RankKey(p: Pick): real
  {
    (2 * p.1.reputation + (if p.1.status == "new" then 1 else 0)) as real
  }

  /** The key orders by reputation first and puts new queries first among equals. */
  lemma RankKeyOrder(a: Pick, b: Pick)
    ensures RankKey(a) >= RankKey(b) <==>
      a.1.reputation > b.1.reputation
      || (a.1.reputation == b.1.reputation && (a.1.status == "new" || b.1.status != "new"))
  {
  }

  /** The candidates list, built hypothesis by hypothesis. */
  method CollectPicks(hyps: seq<Hypothesis>, queryFor: Hypothesis -> QO.SearchQuery) returns (picks: seq<Pick>)
    ensures picks == PassedPicks(hyps, queryFor)
  {
    picks := [];
    var i := 0;
    while i < |hyps|
      invariant 0 <= i <= |hyps|
      invariant picks == PassedPicks(hyps[..i], queryFor)
    {
      assert hyps[..i + 1][..i] == hyps[..i];
      if hyps[i].passedFilter {
        picks := picks + [(hyps[i], queryFor(hyps[i]))];
      }
      i := i + 1;
    }
    assert hyps[..|hyps|] == hyps;
  }

  /** `select_top_hypotheses` */
  method SelectTop(hyps: seq<Hypothesis>, queryFor: Hypothesis -> QO.SearchQuery, topK: int)
    returns (selected: seq<Pick>)
    ensures selected == PyPrefix(S.SortDesc(PassedPicks(hyps, queryFor), RankKey), topK)
  {
    var picks := CollectPicks(hyps, queryFor);
    picks := S.SortDesc(picks, RankKey);
    selected := PyPrefix(picks, topK);
  }

  /** A prefix keeps elements of the sequence, no more often than they occur there. */
  lemma PyPrefixWithin<T>(xs: seq<T>, n: int)
    ensures multiset(PyPrefix(xs, n)) <= multiset(xs)
  {
    var r := PyPrefix(xs, n);
    assert xs == r + xs[|r|..];
  }

  /** Each candidate is a passed hypothesis with its own query. */
  lemma InPassedPicks(p: Pick, hyps: seq<Hypothesis>, queryFor: Hypothesis -> QO.SearchQuery)
    requires p in multiset(PassedPicks(hyps, queryFor))
    ensures p.0.passedFilter && p.0 in hyps && p.1 == queryFor(p.0)
  {
    var picks := PassedPicks(hyps, queryFor);
    var k :| 0 <= k < |picks| && picks[k] == p;
  }

  /**
   * Only passed hypotheses are selected, each with its own query, best
   * first; at most `topK` of them, and exactly that many when there are
   * enough.
   */
  lemma SelectTopSpec(hyps: seq<Hypothesis>, queryFor: Hypothesis -> QO.SearchQuery, topK: int)
    ensures var picks := PassedPicks(hyps, queryFor);
      var selected := PyPrefix(S.SortDesc(picks, RankKey), topK);
      (forall k :: 0 <= k < |selected| ==>
        selected[k].0.passedFilter && selected[k].0 in hyps && selected[k].1 == queryFor(selected[k].0))
      && (forall i, j :: 0 <= i < j < |selected| ==> RankKey(selected[i]) >= RankKey(selected[j]))
      && (topK >= 0 ==> |selected| == Min(topK, |picks|))
      && multiset(selected) <= multiset(picks)
  {
    var picks := PassedPicks(hyps, queryFor);
    var sorted := S.SortDesc(picks, RankKey);
    var selected := PyPrefix(sorted, topK);
    PyPrefixWithin(sorted, topK);
    forall k | 0 <= k < |selected|
      ensures selected[k].0.passedFilter && selected[k].0 in hyps && selected[k].1 == queryFor(selected[k].0)
    {
      assert selected[k] in multiset(selected);
      InPassedPicks(selected[k], hyps, queryFor);
    }
  }

  // ---------------------------------------------------------------------
  // Fetching (`fetch_papers_for_hypothesis`)
  // ---------------------------------------------------------------------

  /** `fetch_papers_for_hypothesis`: the candidates and the provider's name. */
  function FetchPapers(q: QO.SearchQuery, shouldRun: QO.SearchQuery -> bool, enabled: seq<string>,
                       fetch: (P.Provider, string) -> BF.Outcome): (r: (seq<D.Candidate>, string))
    ensures !shouldRun(q) ==> r == ([], "none")
    ensures P.SelectProvider(q.resolvedDomain, enabled).None? ==> r == ([], "none")
    ensures r.0 != [] ==>
      shouldRun(q) && P.SelectProvider(q.resolvedDomain, enabled).Some?
      && var p := P.SelectProvider(q.resolvedDomain, enabled).value;
        r.1 == P.NameOf(p) && fetch(p, q.queryText) == BF.Papers(r.0)
    ensures (shouldRun(q) && P.SelectProvider(q.resolvedDomain, enabled).Some?
             && fetch(P.SelectProvider(q.resolvedDomain, enabled).value, q.queryText).Papers?) ==>
        r.0 == fetch(P.SelectProvider(q.resolvedDomain, enabled).value, q.queryText).candidates
  {
    if !shouldRun(q) then ([], "none")
    else
      var provider := P.SelectProvider(q.resolvedDomain, enabled);
      if provider.None? then ([], "none")
      else
        match fetch(provider.value, q.queryText)
        case Papers(cs) => (cs, P.NameOf(provider.value))
        case Raised(_) => ([], P.NameOf(provider.value))
  }

  // ---------------------------------------------------------------------
  // Deduplication (`deduplicate_and_persist`)
  // ---------------------------------------------------------------------

  /** `deduplicate_and_persist`: every candidate not persisted counts as rejected. */
  method DeduplicateAndPersist(candidates: seq<D.Candidate>, judge: D.Candidate -> BF.Verdict)
    returns (persisted: seq<BF.Paper>, accepted: nat, rejected: nat)
    ensures persisted == BF.PersistedPapers(BF.Verdicts(candidates, judge))
    ensures accepted == |persisted|
    ensures accepted + rejected == |candidates|
  {
    ghost var vs := BF.Verdicts(candidates, judge);
    persisted, accepted, rejected := [], 0, 0;
    var i := 0;
    while i < |candidates|
      invariant 0 <= i <= |candidates|
      invariant persisted == BF.PersistedPapers(vs[..i])
      invariant accepted == |persisted| && accepted + rejected == i
    {
      assert vs[..i + 1][..i] == vs[..i];
      match judge(candidates[i]) {
        case Duplicate(_) =>
          rejected := rejected + 1;
        case Persisted(paper) =>
          persisted := persisted + [paper];
          accepted := accepted + 1;
        case PersistFailed =>
          rejected := rejected + 1;
      }
      i := i + 1;
    }
    assert vs[..|candidates|] == vs;
  }

  // ---------------------------------------------------------------------
  // Sources (`ingest_abstracts`)
  // ---------------------------------------------------------------------

  /** One source per paper with an abstract, in paper order, with no check for existing ones. */
  function AbstractSources(jobId: nat, papers: seq<BF.Paper>): (r: seq<BF.Source>)
    ensures |r| <= |papers|
  {
    if papers == [] then []
    else
      var p := papers[|papers| - 1];
      AbstractSources(jobId, papers[..|papers| - 1])
      + (if Truthy(p.abstractText) then [BF.Source(jobId, BF.PaperRef(p.id), p.abstractText.value, false)] else [])
  }

  /** The papers with an abstract. */
  function WithAbstract(papers: seq<BF.Paper>): nat
  {
    if papers == [] then 0
    else WithAbstract(papers[..|papers| - 1]) + (if Truthy(papers[|papers| - 1].abstractText) then 1 else 0)
  }

  /**
   * There is exactly one source per paper with an abstract: each such
   * paper has an unprocessed source of the job with reference
   * "paper:{id}" and its abstract as text, and every source is one of these.
   */
  lemma {:induction false} AbstractSourcesSpec(jobId: nat, papers: seq<BF.Paper>)
    ensures |AbstractSources(jobId, papers)| == WithAbstract(papers)
    ensures forall k :: 0 <= k < |papers| && Truthy(papers[k].abstractText) ==>
      BF.Source(jobId, BF.PaperRef(papers[k].id), papers[k].abstractText.value, false) in AbstractSources(jobId, papers)
    ensures forall s :: s in AbstractSources(jobId, papers) ==>
      exists k :: 0 <= k < |papers| && Truthy(papers[k].abstractText)
        && s == BF.Source(jobId, BF.PaperRef(papers[k].id), papers[k].abstractText.value, false)
  {
    if papers != [] {
      var n := |papers| - 1;
      AbstractSourcesSpec(jobId, papers[..n]);
      assert forall k :: 0 <= k < n ==> papers[..n][k] == papers[k];
    }
  }

  /** `ingest_abstracts` */
  method IngestAbstracts(jobId: nat, papers: seq<BF.Paper>) returns (sources: seq<BF.Source>)
    ensures sources == AbstractSources(jobId, papers)
  {
    sources := [];
    var i := 0;
    while i < |papers|
      invariant 0 <= i <= |papers|
      invariant sources == AbstractSources(jobId, papers[..i])
    {
      assert papers[..i + 1][..i] == papers[..i];
      var p := papers[i];
      if Truthy(p.abstractText) {
        sources := sources + [BF.Source(jobId, BF.PaperRef(p.id), p.abstractText.value, false)];
      }
      i := i + 1;
    }
    assert papers[..|papers|] == papers;
  }

  // ---------------------------------------------------------------------
  // The stage (`execute_fetch_more`)
  // ---------------------------------------------------------------------

  /** The reason a run is recorded with. */
  function RunReason(q: QO.SearchQuery): string
  {
    if q.status == "new" then "initial_attempt" else "reuse"
  }

  /** Only queries that were never run are due, as the query orchestrator decides. */
  ghost predicate FirstAttemptsOnly(shouldRun: QO.SearchQuery -> bool)
  {
    forall q :: shouldRun(q) ==> q.status == "new"
  }

  /** The query orchestrator's `should_run_query` lets only new queries through. */
  lemma OrchestratorFirstAttemptsOnly()
    ensures FirstAttemptsOnly(q => QO.ShouldRun(q).0)
  {
  }

  /** The totals add up: every fetched paper was accepted or rejected. */
  predicate Balanced(s: Summary)
  {
    s.papersFetched == s.papersAccepted + s.papersRejected
    && forall k :: 0 <= k < |s.runs| ==> s.runs[k].fetchedCount == s.runs[k].accepted + s.runs[k].rejected
  }

  /** What the stage is given besides the hypotheses: the job and the outside calls. */
  datatype Services = Services(jobId: nat, shouldRun: QO.SearchQuery -> bool, enabled: seq<string>,
                               fetch: (P.Provider, string) -> BF.Outcome, judge: D.Candidate -> BF.Verdict)

  /** What one selected hypothesis adds to the summary. */
  datatype Contribution = Contribution(fetched: nat, accepted: nat, rejected: nat, runs: seq<Run>, sources: seq<BF.Source>)

  const NoContribution := Contribution(0, 0, 0, [], [])

  /** The papers fetched and accepted, the run recorded and the sources created for one pick. */
  function Contribute(pick: Pick, sv: Services): (c: Contribution)
    ensures c.accepted + c.rejected == c.fetched && |c.runs| <= 1
  {
    var (cs, provider) := FetchPapers(pick.1, sv.shouldRun, sv.enabled, sv.fetch);
    if cs == [] then NoContribution
    else
      var papers := BF.PersistedPapers(BF.Verdicts(cs, sv.judge));
      Contribution(|cs|, |papers|, |cs| - |papers|,
                   [Run(pick.1.signature, sv.jobId, provider, RunReason(pick.1), |cs|, |papers|, |cs| - |papers|)],
                   AbstractSources(sv.jobId, papers))
  }

  /**
   * A pick records a run exactly when its query is due, its domain has an
   * enabled provider and that provider returns papers. The run counts the
   * provider's papers as fetched and the persisted ones as accepted, the
   * rest as rejected, and the sources are those of the persisted papers
   * with an abstract. Otherwise the pick adds nothing.
   */
  lemma ContributeSpec(pick: Pick, sv: Services)
    ensures var c := Contribute(pick, sv);
      var q := pick.1;
      var provider := P.SelectProvider(q.resolvedDomain, sv.enabled);
      && (c.runs != [] <==>
            sv.shouldRun(q) && provider.Some? && sv.fetch(provider.value, q.queryText).Papers?
            && sv.fetch(provider.value, q.queryText).candidates != [])
      && (c.runs == [] ==> c == NoContribution)
      && (c.runs != [] ==>
            var cs := sv.fetch(provider.value, q.queryText).candidates;
            var papers := BF.PersistedPapers(BF.Verdicts(cs, sv.judge));
            && c.fetched == |cs| && c.accepted == |papers| && c.rejected == |cs| - |papers|
            && c.runs == [Run(q.signature, sv.jobId, P.NameOf(provider.value), RunReason(q), |cs|, |papers|, |cs| - |papers|)]
            && c.sources == AbstractSources(sv.jobId, papers))
  {
  }

  /** The contributions of the picks, added up in order. */
  function Gathered(picks: seq<Pick>, sv: Services): (c: Contribution)
    ensures c.accepted + c.rejected == c.fetched && |c.runs| <= |picks|
  {
    if picks == [] then NoContribution
    else
      var a := Gathered(picks[..|picks| - 1], sv);
      var b := Contribute(picks[|picks| - 1], sv);
      Contribution(a.fetched + b.fetched, a.accepted + b.accepted, a.rejected + b.rejected, a.runs + b.runs, a.sources + b.sources)
  }

  /** Every run gathered is the run of one of the picks. */
  lemma {:induction false} GatheredRuns(picks: seq<Pick>, sv: Services)
    ensures forall run :: run in Gathered(picks, sv).runs ==>
      exists k :: 0 <= k < |picks| && Contribute(picks[k], sv).runs == [run]
  {
    if picks != [] {
      var n := |picks| - 1;
      GatheredRuns(picks[..n], sv);
      forall run | run in Gathered(picks, sv).runs
        ensures exists k :: 0 <= k < |picks| && Contribute(picks[k], sv).runs == [run]
      {
        if run in Gathered(picks[..n], sv).runs {
          var k :| 0 <= k < n && Contribute(picks[..n][k], sv).runs == [run];
          assert picks[..n][k] == picks[k];
        } else {
          var b := Contribute(picks[n], sv);
          assert run in b.runs && |b.runs| <= 1;
          assert b.runs == [run];
        }
      }
    }
  }

  /** Every gathered run counts each fetched paper as accepted or rejected, and is a first attempt when only new queries are due. */
  lemma GatheredWellFormed(picks: seq<Pick>, sv: Services)
    ensures var g := Gathered(picks, sv);
      && (forall k :: 0 <= k < |g.runs| ==> g.runs[k].fetchedCount == g.runs[k].accepted + g.runs[k].rejected)
      && (FirstAttemptsOnly(sv.shouldRun) ==> forall k :: 0 <= k < |g.runs| ==> g.runs[k].reason == "initial_attempt")
  {
    var g := Gathered(picks, sv);
    GatheredRuns(picks, sv);
    forall k | 0 <= k < |g.runs|
      ensures g.runs[k].fetchedCount == g.runs[k].accepted + g.runs[k].rejected
      ensures FirstAttemptsOnly(sv.shouldRun) ==> g.runs[k].reason == "initial_attempt"
    {
      assert g.runs[k] in g.runs;
      var j :| 0 <= j < |picks| && Contribute(picks[j], sv).runs == [g.runs[k]];
      ContributeSpec(picks[j], sv);
    }
  }

  /**
   * The summary of the stage over the selected picks: all zero when none
   * is selected, otherwise one executed query per pick and, as totals,
   * the sums of what the picks contributed.
   */
  function Summarize(selected: seq<Pick>, sv: Services): Summary
  {
    if selected == [] then EmptySummary
    else
      var g := Gathered(selected, sv);
      Summary(|selected|, g.fetched, g.accepted, g.rejected, g.runs, g.sources)
  }

  /**
   * The summary has one executed query per selected pick, at most one run
   * per pick, totals in which every fetched paper is accepted or rejected,
   * and only first attempts when only new queries are due.
   */
  lemma SummarizeSpec(selected: seq<Pick>, sv: Services)
    ensures var r := Summarize(selected, sv);
      && (selected == [] ==> r == EmptySummary)
      && r.queriesExecuted == |selected|
      && |r.runs| <= |selected|
      && Balanced(r)
      && (FirstAttemptsOnly(sv.shouldRun) ==> forall k :: 0 <= k < |r.runs| ==> r.runs[k].reason == "initial_attempt")
  {
    GatheredWellFormed(selected, sv);
    if selected != [] {
      assert Summarize(selected, sv).runs == Gathered(selected, sv).runs;
    }
  }

  /** One selected hypothesis: the summary after it. */
  method ProcessPick(jobId: nat, pick: Pick, shouldRun: QO.SearchQuery -> bool, enabled: seq<string>, fetch: (P.Provider, string) -> BF.Outcome,
                     judge: D.Candidate -> BF.Verdict, acc: Summary) returns (r: Summary)
    requires Balanced(acc)
    ensures Balanced(r)
    ensures FirstAttemptsOnly(shouldRun) && (forall k :: 0 <= k < |acc.runs| ==> acc.runs[k].reason == "initial_attempt")
      ==> forall k :: 0 <= k < |r.runs| ==> r.runs[k].reason == "initial_attempt"
    ensures r.queriesExecuted == acc.queriesExecuted
    ensures r.runs == acc.runs || (|r.runs| == |acc.runs| + 1 && r.runs[..|acc.runs|] == acc.runs)
    ensures acc.sources <= r.sources
    ensures var c := Contribute(pick, Services(jobId, shouldRun, enabled, fetch, judge));
      r == Summary(acc.queriesExecuted, acc.papersFetched + c.fetched, acc.papersAccepted + c.accepted,
                   acc.papersRejected + c.rejected, acc.runs + c.runs, acc.sources + c.sources)
  {
    var (search, q) := pick;
    var (candidates, provider) := FetchPapers(q, shouldRun, enabled, fetch);
    if candidates == [] {
      return acc;
    }
    var papers, accepted, rejected := DeduplicateAndPersist(candidates, judge);
    var sources := acc.sources;
    if papers != [] {
      var added := IngestAbstracts(jobId, papers);
      sources := sources + added;
    }
    var reason := RunReason(q);
    var run := Run(q.signature, jobId, provider, reason, |candidates|, accepted, rejected);
    r := Summary(acc.queriesExecuted, acc.papersFetched + |candidates|, acc.papersAccepted + accepted,
                 acc.papersRejected + rejected, acc.runs + [run], sources);
    assert r.runs[..|acc.runs|] == acc.runs;
  }

  /** The loop of `execute_fetch_more` over the selected picks. */
  method ProcessPicks(jobId: nat, selected: seq<Pick>, shouldRun: QO.SearchQuery -> bool, enabled: seq<string>,
                      fetch: (P.Provider, string) -> BF.Outcome, judge: D.Candidate -> BF.Verdict)
    returns (r: Summary)
    ensures var g := Gathered(selected, Services(jobId, shouldRun, enabled, fetch, judge));
      r == Summary(|selected|, g.fetched, g.accepted, g.rejected, g.runs, g.sources)
  {
    ghost var sv := Services(jobId, shouldRun, enabled, fetch, judge);
    r := Summary(|selected|, 0, 0, 0, [], []);
    var i := 0;
    while i < |selected|
      invariant 0 <= i <= |selected|
      invariant var g := Gathered(selected[..i], sv);
        r == Summary(|selected|, g.fetched, g.accepted, g.rejected, g.runs, g.sources)
    {
      assert selected[..i + 1][..i] == selected[..i];
      GatheredWellFormed(selected[..i], sv);
      r := ProcessPick(jobId, selected[i], shouldRun, enabled, fetch, judge, r);
      i := i + 1;
    }
    assert selected[..|selected|] == selected;
  }

  /**
   * `execute_fetch_more`: with nothing selected the all-zero summary;
   * otherwise one executed query per selected hypothesis, totals in which
   * every fetched paper is accepted or rejected, at most one run per
   * selected hypothesis, and, when only new queries are due, every run a
   * query's first attempt.
   */
  method ExecuteFetchMore(jobId: nat, hyps: seq<Hypothesis>, queryFor: Hypothesis -> QO.SearchQuery, topK: int,
                          shouldRun: QO.SearchQuery -> bool, enabled: seq<string>, fetch: (P.Provider, string) -> BF.Outcome,
                          judge: D.Candidate -> BF.Verdict) returns (r: Summary)
    ensures var selected := PyPrefix(S.SortDesc(PassedPicks(hyps, queryFor), RankKey), topK);
      (selected == [] ==> r == EmptySummary)
      && r.queriesExecuted == |selected|
      && |r.runs| <= |selected|
    ensures Balanced(r)
    ensures FirstAttemptsOnly(shouldRun) ==> forall k :: 0 <= k < |r.runs| ==> r.runs[k].reason == "initial_attempt"
    ensures r == Summarize(PyPrefix(S.SortDesc(PassedPicks(hyps, queryFor), RankKey), topK),
                           Services(jobId, shouldRun, enabled, fetch, judge))
  {
    var selected := SelectTop(hyps, queryFor, topK);
    SummarizeSpec(selected, Services(jobId, shouldRun, enabled, fetch, judge));
    if selected == [] {
      return EmptySummary;
    }
    r := ProcessPicks(jobId, selected, shouldRun, enabled, fetch, judge);
  }
}
