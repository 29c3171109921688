/**
 * The fetch stage of the backend: for each selected hypothesis, get or
 * create its search query, skip it unless the query is new, ask the
 * providers of the query's domain in order for papers, deduplicate and
 * persist them, keep only the ids the job has not fetched before, record
 * the run and queue an ingestion source per new paper with an abstract.
 *
 * The providers' network calls are the parameter `fetch` (provider name and
 * query text to papers or an error); what `check_duplicate` and
 * `persist_paper` make of a candidate is the parameter `judge`.
 */
module BackendFetching {
  import opened Common
  import QO = QueryOrchestrator
  import D = DuplicateDetection

  /** What a provider's `fetch` does for a query text. */
  datatype Outcome = Papers(candidates: seq<D.Candidate>) | Raised(message: string)

  /** What `fetch_for_hypothesis` returns or raises. */
  datatype FetchResult =
    | Fetched(candidates: seq<D.Candidate>, provider: string)
    | FetchError(domain: string, errors: seq<(string, string)>)

  /** A persisted paper, as far as the stage reads it. */
  datatype Paper = Paper(id: nat, abstractText: Option<string>)

  /** What deduplication and persistence make of one candidate. */
  datatype Verdict = Duplicate(matched: Option<nat>) | Persisted(paper: Paper) | PersistFailed

  /** An `IngestionSource` row of type PAPER_ABSTRACT. */
  datatype Source = Source(jobId: nat, sourceRef: string, rawText: string, processed: bool)

  /** A `SearchQueryRun` row. */
  datatype Run = Run(querySignature: string, jobId: nat, provider: string, reason: string,
                     fetched: seq<nat>, accepted: seq<nat>, rejected: seq<nat>)

  // ---------------------------------------------------------------------
  // Provider routing (`fetch_for_hypothesis`)
  // ---------------------------------------------------------------------

  /** The domain a query is routed by: its own, or "default" when it has none. */
  function DomainOf(resolved: Option<string>): (r: string)
    ensures resolved.None? || resolved.value == "" ==> r == "default"
    ensures resolved.Some? && resolved.value != "" ==> r == resolved.value
  {
    if resolved.None? || resolved.value == "" then "default" else resolved.value
  }

  /** The providers to try: the domain's order, or the default order when it has none. */
  function ProviderOrder(domain: string, orders: map<string, seq<string>>): (r: seq<string>)
    ensures domain in orders && orders[domain] != [] ==> r == orders[domain]
    ensures !(domain in orders && orders[domain] != []) ==>
      r == (if "default" in orders then orders["default"] else [])
  {
    if domain in orders && orders[domain] != [] then orders[domain]
    else if "default" in orders then orders["default"]
    else []
  }

  /** The provider is available and returns papers. */
  predicate Hit(providers: set<string>, name: string, text: string, fetch: (string, string) -> Outcome)
  {
    name in providers && fetch(name, text).Papers? && fetch(name, text).candidates != []
  }

  /** The provider is available and raises. */
  predicate Fails(providers: set<string>, name: string, text: string, fetch: (string, string) -> Outcome)
  {
    name in providers && fetch(name, text).Raised?
  }

  /**
   * The provider loop from `order` on, with the errors met so far: the first
   * provider that returns papers wins; at the end, errors are raised and
   * otherwise the result is empty with provider "none".
   */
  function Scan(providers: set<string>, order: seq<string>, text: string, fetch: (string, string) -> Outcome,
                domain: string, errors: seq<(string, string)>): (r: FetchResult)
    ensures r.Fetched? && r.candidates != [] ==>
      exists k :: 0 <= k < |order| && Hit(providers, order[k], text, fetch) && r.provider == order[k]
        && r.candidates == fetch(order[k], text).candidates
        && forall j :: 0 <= j < k ==> !Hit(providers, order[j], text, fetch)
    ensures (exists k :: 0 <= k < |order| && Hit(providers, order[k], text, fetch)) ==>
      r.Fetched? && r.candidates != []
    ensures r.Fetched? && r.candidates == [] ==>
      r.provider == "none" && errors == [] && forall j :: 0 <= j < |order| ==> !Fails(providers, order[j], text, fetch)
    ensures r.FetchError? ==>
      r.domain == domain && r.errors != [] && |errors| <= |r.errors| && r.errors[..|errors|] == errors
      && (errors != [] || exists j :: 0 <= j < |order| && Fails(providers, order[j], text, fetch))
    decreases |order|
  {
    if order == [] then
      if errors == [] then Fetched([], "none") else FetchError(domain, errors)
    else
      var name := order[0];
      if name !in providers then Scan(providers, order[1..], text, fetch, domain, errors)
      else
        match fetch(name, text)
        case Papers(cs) =>
          if cs != [] then Fetched(cs, name)
          else Scan(providers, order[1..], text, fetch, domain, errors)
        case Raised(msg) =>
          var r := Scan(providers, order[1..], text, fetch, domain, errors + [(name, msg)]);
          assert (errors + [(name, msg)])[..|errors|] == errors;
          r
  }

  /** An error is raised only after some available provider was tried. */
  lemma {:induction false} ErrorHasProvider(providers: set<string>, order: seq<string>, text: string,
                                            fetch: (string, string) -> Outcome, domain: string)
    requires Scan(providers, order, text, fetch, domain, []).FetchError?
    ensures exists j :: 0 <= j < |order| && order[j] in providers
  {
    var j :| 0 <= j < |order| && Fails(providers, order[j], text, fetch);
  }

  // ---------------------------------------------------------------------
  // Deduplication (`_deduplicate_and_persist`)
  // ---------------------------------------------------------------------

  /** The ids of the persisted papers, in order. */
  function AcceptedIds(vs: seq<Verdict>): (r: seq<nat>)
    ensures |r| <= |vs|
  {
    if vs == [] then []
    else AcceptedIds(vs[..|vs| - 1]) + (if vs[|vs| - 1].Persisted? then [vs[|vs| - 1].paper.id] else [])
  }

  /** The matched ids of the duplicates that have one, in order. */
  function RejectedIds(vs: seq<Verdict>): (r: seq<nat>)
    ensures |r| <= |vs|
  {
    if vs == [] then []
    else
      RejectedIds(vs[..|vs| - 1])
      + (if vs[|vs| - 1].Duplicate? && vs[|vs| - 1].matched.Some? then [vs[|vs| - 1].matched.value] else [])
  }

  /** The persisted papers, in order. */
  function PersistedPapers(vs: seq<Verdict>): (r: seq<Paper>)
    ensures |r| <= |vs|
  {
    if vs == [] then []
    else PersistedPapers(vs[..|vs| - 1]) + (if vs[|vs| - 1].Persisted? then [vs[|vs| - 1].paper] else [])
  }

  /** Candidates in neither list: failed persists and duplicates without a matched id. */
  function Dropped(vs: seq<Verdict>): nat
  {
    if vs == [] then 0
    else
      Dropped(vs[..|vs| - 1])
      + (if vs[|vs| - 1].PersistFailed? || (vs[|vs| - 1].Duplicate? && vs[|vs| - 1].matched.None?) then 1 else 0)
  }

  /**
   * Every candidate is accounted for exactly once: accepted, rejected, or
   * dropped because its persist failed or its duplicate had no id; and the
   * accepted ids are those of the persisted papers.
   */
  lemma {:induction false} DedupAccounting(vs: seq<Verdict>)
    ensures |AcceptedIds(vs)| + |RejectedIds(vs)| + Dropped(vs) == |vs|
    ensures |PersistedPapers(vs)| == |AcceptedIds(vs)|
    ensures forall i :: 0 <= i < |AcceptedIds(vs)| ==> AcceptedIds(vs)[i] == PersistedPapers(vs)[i].id
  {
    if vs != [] {
      DedupAccounting(vs[..|vs| - 1]);
    }
  }

  /** The verdicts on a batch of candidates. */
  function Verdicts(candidates: seq<D.Candidate>, judge: D.Candidate -> Verdict): (r: seq<Verdict>)
    ensures |r| == |candidates|
    ensures forall i :: 0 <= i < |candidates| ==> r[i] == judge(candidates[i])
  {
    seq(|candidates|, i requires 0 <= i < |candidates| => judge(candidates[i]))
  }

  /** `_deduplicate_and_persist` */
  method DeduplicateAndPersist(candidates: seq<D.Candidate>, judge: D.Candidate -> Verdict)
    returns (persisted: seq<Paper>, accepted: seq<nat>, rejected: seq<nat>)
    ensures persisted == PersistedPapers(Verdicts(candidates, judge))
    ensures accepted == AcceptedIds(Verdicts(candidates, judge))
    ensures rejected == RejectedIds(Verdicts(candidates, judge))
  {
    var vs := Verdicts(candidates, judge);
    persisted, accepted, rejected := [], [], [];
    var i := 0;
    while i < |candidates|
      invariant 0 <= i <= |candidates|
      invariant persisted == PersistedPapers(vs[..i])
      invariant accepted == AcceptedIds(vs[..i])
      invariant rejected == RejectedIds(vs[..i])
    {
      assert vs[..i + 1][..i] == vs[..i];
      var v := judge(candidates[i]);
      match v {
        case Duplicate(matched) =>
          if matched.Some? {
            rejected := rejected + [matched.value];
          }
        case Persisted(paper) =>
          persisted := persisted + [paper];
          accepted := accepted + [paper.id];
        case PersistFailed =>
      }
      i := i + 1;
    }
    assert vs[..|candidates|] == vs;
  }

  // ---------------------------------------------------------------------
  // Job-level deduplication (`seen_ids`)
  // ---------------------------------------------------------------------

  /** The ids a run newly fetched: those not seen before, each once, in order. */
  function Fresh(seen: set<nat>, ids: seq<nat>): (r: seq<nat>)
    decreases |ids|
  {
    if ids == [] then []
    else if ids[0] in seen then Fresh(seen, ids[1..])
    else [ids[0]] + Fresh(seen + {ids[0]}, ids[1..])
  }

  /** The set of a sequence's elements. */
  function Elems(ids: seq<nat>): set<nat>
  {
    set i | 0 <= i < |ids| :: ids[i]
  }

  /** A run's fetched ids are distinct, none seen before, and all among the ids. */
  lemma {:induction false} FreshSpec(seen: set<nat>, ids: seq<nat>)
    ensures Distinct(Fresh(seen, ids))
    ensures Elems(Fresh(seen, ids)) !! seen
    ensures Elems(Fresh(seen, ids)) <= Elems(ids)
    decreases |ids|
  {
    if ids != [] {
      var x := ids[0];
      ElemsCons(x, ids[1..]);
      assert [x] + ids[1..] == ids;
      if x in seen {
        FreshSpec(seen, ids[1..]);
      } else {
        var rest := Fresh(seen + {x}, ids[1..]);
        FreshSpec(seen + {x}, ids[1..]);
        ElemsCons(x, rest);
        DistinctCons(x, rest);
      }
    }
  }

  /** Together with the ids seen before, a run's fetched ids cover every id. */
  lemma {:induction false} FreshCovers(seen: set<nat>, ids: seq<nat>)
    ensures Elems(ids) <= Elems(Fresh(seen, ids)) + seen
    decreases |ids|
  {
    if ids != [] {
      var x := ids[0];
      ElemsCons(x, ids[1..]);
      assert [x] + ids[1..] == ids;
      if x in seen {
        FreshCovers(seen, ids[1..]);
      } else {
        var rest := Fresh(seen + {x}, ids[1..]);
        FreshCovers(seen + {x}, ids[1..]);
        ElemsCons(x, rest);
      }
    }
  }

  lemma ElemsCons(x: nat, s: seq<nat>)
    ensures Elems([x] + s) == {x} + Elems(s)
  {
    var t := [x] + s;
    assert forall i :: 0 <= i < |s| ==> t[i + 1] == s[i];
    assert t[0] == x;
  }

  /** Prepending a new element keeps a sequence distinct. */
  lemma DistinctCons(x: nat, s: seq<nat>)
    requires Distinct(s) && x !in Elems(s)
    ensures Distinct([x] + s)
  {
    var t := [x] + s;
    forall i, j | 0 <= i < j < |t|
      ensures t[i] != t[j]
    {
      if i == 0 {
        assert t[j] == s[j - 1];
      } else {
        assert t[i] == s[i - 1] && t[j] == s[j - 1];
      }
    }
  }

  /** The loop over `accepted_ids + rejected_ids` that grows `seen_ids`. */
  method MarkSeen(seen: set<nat>, ids: seq<nat>) returns (fetched: seq<nat>, seen': set<nat>)
    ensures fetched == Fresh(seen, ids)
    ensures seen' == seen + Elems(ids)
  {
    fetched, seen' := [], seen;
    var i := 0;
    while i < |ids|
      invariant 0 <= i <= |ids|
      invariant seen' == seen + Elems(ids[..i])
      invariant fetched + Fresh(seen', ids[i..]) == Fresh(seen, ids)
    {
      assert Elems(ids[..i + 1]) == Elems(ids[..i]) + {ids[i]};
      assert ids[i..][1..] == ids[i + 1..];
      if ids[i] !in seen' {
        fetched := fetched + [ids[i]];
        seen' := seen' + {ids[i]};
      }
      i := i + 1;
    }
    assert ids[..|ids|] == ids;
  }

  // ---------------------------------------------------------------------
  // Ingestion sources (`_create_ingestion_sources`)
  // ---------------------------------------------------------------------

  /** `f"paper:{paper.id}"` */
  function PaperRef(id: nat): string
  {
    "paper:" + NatToString(id)
  }

  /** Different papers have different references. */
  lemma PaperRefInjective(a: nat, b: nat)
    requires PaperRef(a) == PaperRef(b)
    ensures a == b
  {
    assert PaperRef(a)[6..] == NatToString(a);
    assert PaperRef(b)[6..] == NatToString(b);
    DigitsValueOfString(a);
    DigitsValueOfString(b);
  }

  /** Some row of the table is the job's source for the reference. */
  predicate HasSource(sources: seq<Source>, jobId: nat, sourceRef: string)
  {
    exists i :: 0 <= i < |sources| && sources[i].jobId == jobId && sources[i].sourceRef == sourceRef
  }

  /** The row one paper adds: none without an abstract or when its source exists. */
  function SourceFor(sources: seq<Source>, jobId: nat, p: Paper): (r: seq<Source>)
    ensures r == [] <==> !Truthy(p.abstractText) || HasSource(sources, jobId, PaperRef(p.id))
  {
    if !Truthy(p.abstractText) || HasSource(sources, jobId, PaperRef(p.id)) then []
    else [Source(jobId, PaperRef(p.id), p.abstractText.value, false)]
  }

  /** The rows the papers add, each seeing the rows added before it. */
  function NewSources(sources: seq<Source>, jobId: nat, papers: seq<Paper>): seq<Source>
  {
    if papers == [] then []
    else
      var before := NewSources(sources, jobId, papers[..|papers| - 1]);
      before + SourceFor(sources + before, jobId, papers[|papers| - 1])
  }

  /** No two rows of a job share a reference. */
  predicate UniqueRefs(sources: seq<Source>)
  {
    forall i, j :: 0 <= i < j < |sources| && sources[i].jobId == sources[j].jobId ==>
      sources[i].sourceRef != sources[j].sourceRef
  }

  /** A source row stays in any longer table. */
  lemma HasSourceGrows(sources: seq<Source>, more: seq<Source>, jobId: nat, sourceRef: string)
    requires HasSource(sources, jobId, sourceRef)
    ensures HasSource(sources + more, jobId, sourceRef)
  {
    var i :| 0 <= i < |sources| && sources[i].jobId == jobId && sources[i].sourceRef == sourceRef;
    assert (sources + more)[i] == sources[i];
  }

  /**
   * After the papers are processed, every paper with an abstract has a
   * source for the job, and a table without repeated references keeps
   * none: one source per paper.
   */
  lemma {:induction false} NewSourcesSpec(sources: seq<Source>, jobId: nat, papers: seq<Paper>)
    ensures forall k :: 0 <= k < |papers| && Truthy(papers[k].abstractText) ==>
      HasSource(sources + NewSources(sources, jobId, papers), jobId, PaperRef(papers[k].id))
    ensures UniqueRefs(sources) ==> UniqueRefs(sources + NewSources(sources, jobId, papers))
  {
    if papers != [] {
      var n := |papers| - 1;
      var before := NewSources(sources, jobId, papers[..n]);
      var added := SourceFor(sources + before, jobId, papers[n]);
      NewSourcesSpec(sources, jobId, papers[..n]);
      assert sources + NewSources(sources, jobId, papers) == (sources + before) + added;
      forall k | 0 <= k < |papers| && Truthy(papers[k].abstractText)
        ensures HasSource((sources + before) + added, jobId, PaperRef(papers[k].id))
      {
        if k < n {
          assert papers[..n][k] == papers[k];
          HasSourceGrows(sources + before, added, jobId, PaperRef(papers[k].id));
        } else if added == [] {
          assert (sources + before) + added == sources + before;
        } else {
          assert ((sources + before) + added)[|sources + before|] == added[0];
        }
      }
      if UniqueRefs(sources) {
        AddUnique(sources + before, added, jobId, papers[n]);
      }
    }
  }

  /** Adding one paper's row keeps references unique. */
  lemma AddUnique(sources: seq<Source>, added: seq<Source>, jobId: nat, p: Paper)
    requires UniqueRefs(sources)
    requires added == SourceFor(sources, jobId, p)
    ensures UniqueRefs(sources + added)
  {
    if added != [] {
      var t := sources + added;
      forall i, j | 0 <= i < j < |t| && t[i].jobId == t[j].jobId
        ensures t[i].sourceRef != t[j].sourceRef
      {
        if j == |sources| {
          assert t[i] == sources[i];
          assert !HasSource(sources, jobId, PaperRef(p.id));
        } else {
          assert t[i] == sources[i] && t[j] == sources[j];
        }
      }
    }
  }

  /** The rows the stage writes: ingestion sources and search runs. */
  class Ledger {
    var sources: seq<Source>
    var runs: seq<Run>

    constructor(sources0: seq<Source>, runs0: seq<Run>)
      ensures sources == sources0 && runs == runs0
    {
      sources, runs := sources0, runs0;
    }

    /** `_create_ingestion_sources` */
    method CreateSources(jobId: nat, papers: seq<Paper>)
      modifies this
      ensures sources == old(sources) + NewSources(old(sources), jobId, papers)
      ensures runs == old(runs)
    {
      var i := 0;
      while i < |papers|
        invariant 0 <= i <= |papers|
        invariant sources == old(sources) + NewSources(old(sources), jobId, papers[..i])
        invariant runs == old(runs)
      {
        assert papers[..i + 1][..i] == papers[..i];
        sources := sources + SourceFor(sources, jobId, papers[i]);
        i := i + 1;
      }
      assert papers[..|papers|] == papers;
    }

    /** `record_search_run` */
    method RecordRun(run: Run)
      modifies this
      ensures runs == old(runs) + [run]
      ensures sources == old(sources)
    {
      runs := runs + [run];
    }
  }

  // ---------------------------------------------------------------------
  // The service
  // ---------------------------------------------------------------------

  /** The keyword arguments `record_search_run` accepts. */
  const RecordRunParameters: set<string> :=
    {"search_query", "job_id", "provider_used", "reason", "session", "config"}

  /** The keyword arguments the fetch stage passes to it. */
  const RecordRunArguments: set<string> :=
    {"search_query", "job_id", "provider_used", "reason", "fetched_paper_ids", "accepted_paper_ids",
     "rejected_paper_ids", "session", "config"}

  /** As written, the stage's call to `record_search_run` raises a TypeError. */
  lemma RecordRunCallRejected()
    ensures !(RecordRunArguments <= RecordRunParameters)
    ensures RecordRunArguments - RecordRunParameters
      == {"fetched_paper_ids", "accepted_paper_ids", "rejected_paper_ids"}
  {
    assert "fetched_paper_ids" in RecordRunArguments;
  }

  /** The fetched ids of the runs are pairwise disjoint and disjoint from `seen`. */
  predicate RunsDisjoint(runs: seq<Run>, seen: set<nat>)
  {
    (forall a :: 0 <= a < |runs| ==> Elems(runs[a].fetched) !! seen && Distinct(runs[a].fetched))
    && forall a, b :: 0 <= a < b < |runs| ==> Elems(runs[a].fetched) !! Elems(runs[b].fetched)
  }

  /** `FetchService` */
  class FetchService {
    var providers: set<string>

    /** `_initialize_providers`: the active policy entries whose class exists and starts. */
    constructor(policy: seq<(string, bool)>, registry: set<string>, failing: set<string>)
      ensures forall n :: n in providers <==>
        (exists i :: 0 <= i < |policy| && policy[i] == (n, true)) && n in registry && n !in failing
    {
      var ps: set<string> := {};
      var i := 0;
      while i < |policy|
        invariant 0 <= i <= |policy|
        invariant forall n :: n in ps <==>
          (exists k :: 0 <= k < i && policy[k] == (n, true)) && n in registry && n !in failing
      {
        var (name, active) := policy[i];
        if active && name in registry && name !in failing {
          ps := ps + {name};
        }
        i := i + 1;
      }
      providers := ps;
    }

    /** `fetch_for_hypothesis` */
    method FetchForHypothesis(q: QO.SearchQuery, orders: map<string, seq<string>>,
                              fetch: (string, string) -> Outcome) returns (r: FetchResult)
      ensures r == Scan(providers, ProviderOrder(DomainOf(q.resolvedDomain), orders), q.queryText, fetch,
                        DomainOf(q.resolvedDomain), [])
    {
      var domain := DomainOf(q.resolvedDomain);
      var order := ProviderOrder(domain, orders);
      var errors: seq<(string, string)> := [];
      var i := 0;
      while i < |order|
        invariant 0 <= i <= |order|
        invariant Scan(providers, order[i..], q.queryText, fetch, domain, errors)
          == Scan(providers, order, q.queryText, fetch, domain, [])
      {
        var name := order[i];
        assert order[i..][1..] == order[i + 1..];
        if name in providers {
          match fetch(name, q.queryText) {
            case Papers(cs) =>
              if cs != [] {
                return Fetched(cs, name);
              }
            case Raised(msg) =>
              errors := errors + [(name, msg)];
          }
        }
        i := i + 1;
      }
      if errors != [] {
        return FetchError(domain, errors);
      }
      return Fetched([], "none");
    }

    /**
     * One hypothesis of `execute_fetch_stage`, as intended: the run is
     * recorded and the sources created. A raised error ends the hypothesis
     * with the query row kept and nothing else written.
     */
    method ProcessHypothesis(jobId: nat, h: QO.Hypothesis, cfg: QO.Config, digest: string -> string,
                             orders: map<string, seq<string>>, fetch: (string, string) -> Outcome,
                             judge: D.Candidate -> Verdict, seen: set<nat>,
                             queries: QO.QueryStore, ledger: Ledger)
      returns (seen': set<nat>)
      modifies queries, ledger
      ensures seen <= seen'
      ensures old(ledger.sources) <= ledger.sources
      ensures ledger.runs == old(ledger.runs) || exists run :: ledger.runs == old(ledger.runs) + [run]
      ensures |ledger.runs| == |old(ledger.runs)| + 1 ==>
        var run := ledger.runs[|ledger.runs| - 1];
        run.fetched == Fresh(seen, run.accepted + run.rejected) && seen' == seen + Elems(run.accepted + run.rejected)
      ensures |ledger.runs| == |old(ledger.runs)| ==> seen' == seen
      ensures var st := HypothesisStep(QueryFor(old(queries.rows), h, jobId, cfg, digest),
                                       Setup(jobId, providers, orders, fetch, judge), seen);
        && queries.rows == RowsAfter(old(queries.rows), h, jobId, cfg, digest)
        && ledger.runs == old(ledger.runs) + st.run
        && ledger.sources == old(ledger.sources) + NewSources(old(ledger.sources), jobId, st.papers)
        && seen' == st.seen
    {
      var q := queries.GetOrCreate(h, jobId, "", [], cfg, digest);
      var st := StepFor(jobId, q, orders, fetch, judge, seen);
      StepSeen(q, Setup(jobId, providers, orders, fetch, judge), seen);
      if st.run != [] {
        ledger.RecordRun(st.run[0]);
        ledger.CreateSources(jobId, st.papers);
      }
      seen' := st.seen;
    }

    /**
     * The work of one hypothesis once its query is known: a query that is
     * due is fetched; papers found are deduplicated and persisted, their ids
     * marked seen, and the run that records them is built.
     */
    method StepFor(jobId: nat, q: QO.SearchQuery, orders: map<string, seq<string>>,
                   fetch: (string, string) -> Outcome, judge: D.Candidate -> Verdict, seen: set<nat>)
      returns (st: Step)
      ensures st == HypothesisStep(q, Setup(jobId, providers, orders, fetch, judge), seen)
    {
      var (shouldRun, reason) := QO.ShouldRun(q);
      if !shouldRun {
        return Step([], [], seen);
      }
      var result := FetchForHypothesis(q, orders, fetch);
      if result.FetchError? || result.candidates == [] {
        return Step([], [], seen);
      }
      var persisted, accepted, rejected := DeduplicateAndPersist(result.candidates, judge);
      var fetched, seen';
      fetched, seen' := MarkSeen(seen, accepted + rejected);
      st := Step([Run(q.signature, jobId, result.provider, reason, fetched, accepted, rejected)], persisted, seen');
    }

    /**
     * One hypothesis of `execute_fetch_stage` as written: the call that
     * records the run raises, so after the papers are persisted and the ids
     * marked seen, neither a run nor a source is written.
     */
    method ProcessHypothesisAsWritten(jobId: nat, h: QO.Hypothesis, cfg: QO.Config, digest: string -> string,
                                      orders: map<string, seq<string>>, fetch: (string, string) -> Outcome,
                                      judge: D.Candidate -> Verdict, seen: set<nat>,
                                      queries: QO.QueryStore, ledger: Ledger)
      returns (seen': set<nat>)
      modifies queries
      ensures seen <= seen'
      ensures ledger.runs == old(ledger.runs) && ledger.sources == old(ledger.sources)
    {
      var q := queries.GetOrCreate(h, jobId, "", [], cfg, digest);
      var (shouldRun, reason) := QO.ShouldRun(q);
      if !shouldRun {
        return seen;
      }
      var result := FetchForHypothesis(q, orders, fetch);
      if result.FetchError? || result.candidates == [] {
        return seen;
      }
      var persisted, accepted, rejected := DeduplicateAndPersist(result.candidates, judge);
      var fetched;
      fetched, seen' := MarkSeen(seen, accepted + rejected);
      RecordRunCallRejected();
    }

    /** One turn of the stage's loop: hypothesis `i` is processed and the fold moves past it. */
    method StageTurn(jobId: nat, targets: seq<QO.Hypothesis>, i: nat, cfg: QO.Config, digest: string -> string,
                     orders: map<string, seq<string>>, fetch: (string, string) -> Outcome,
                     judge: D.Candidate -> Verdict, seen: set<nat>,
                     queries: QO.QueryStore, ledger: Ledger)
      returns (seen': set<nat>)
      requires i < |targets|
      modifies queries, ledger
      ensures var setup := Setup(jobId, providers, orders, fetch, judge);
        StageFold(queries.rows, ledger.sources, ledger.runs, seen', targets[i + 1..], cfg, digest, setup)
          == old(StageFold(queries.rows, ledger.sources, ledger.runs, seen, targets[i..], cfg, digest, setup))
    {
      assert targets[i..][1..] == targets[i + 1..];
      seen' := ProcessHypothesis(jobId, targets[i], cfg, digest, orders, fetch, judge, seen, queries, ledger);
    }

    /**
     * `execute_fetch_stage` over the selected hypotheses, as intended: the
     * runs it records fetched pairwise disjoint sets of ids, none fetched
     * by the job before, and sources are only added.
     */
    method ExecuteFetchStage(jobId: nat, targets: seq<QO.Hypothesis>, cfg: QO.Config, digest: string -> string,
                             orders: map<string, seq<string>>, fetch: (string, string) -> Outcome,
                             judge: D.Candidate -> Verdict, seen0: set<nat>,
                             queries: QO.QueryStore, ledger: Ledger)
      modifies queries, ledger
      ensures old(ledger.sources) <= ledger.sources
      ensures old(ledger.runs) <= ledger.runs
      ensures RunsDisjoint(ledger.runs[|old(ledger.runs)|..], seen0)
      ensures var r := StageFold(old(queries.rows), old(ledger.sources), old(ledger.runs), seen0, targets,
                                 cfg, digest, Setup(jobId, providers, orders, fetch, judge));
        queries.rows == r.rows && ledger.sources == r.sources && ledger.runs == r.runs
    {
      var seen := seen0;
      var i := 0;
      ghost var rows0, sources0, runs0 := queries.rows, ledger.sources, ledger.runs;
      ghost var setup := Setup(jobId, providers, orders, fetch, judge);
      while i < |targets|
        invariant 0 <= i <= |targets|
        invariant StageFold(rows0, sources0, runs0, seen0, targets, cfg, digest, setup)
          == StageFold(queries.rows, ledger.sources, ledger.runs, seen, targets[i..], cfg, digest, setup)
      {
        seen := StageTurn(jobId, targets, i, cfg, digest, orders, fetch, judge, seen, queries, ledger);
        i := i + 1;
      }
      assert targets[|targets|..] == [];
      StageFoldDisjoint(rows0, sources0, runs0, seen0, targets, cfg, digest, setup, |runs0|, seen0);
    }
  }

  // ---------------------------------------------------------------------
  // The stage as a function of the rows before it
  // ---------------------------------------------------------------------

  /** What the stage is given besides the rows: the job, the providers and the outside calls. */
  datatype Setup = Setup(jobId: nat, providers: set<string>, orders: map<string, seq<string>>,
                         fetch: (string, string) -> Outcome, judge: D.Candidate -> Verdict)

  /** The query `get_or_create_search_query` hands back, given the rows before the call. */
  function QueryFor(rows: seq<QO.SearchQuery>, h: QO.Hypothesis, jobId: nat, cfg: QO.Config,
                    digest: string -> string): QO.SearchQuery
  {
    var found := QO.Find(rows, jobId, QO.Signature(h, cfg, digest));
    if found.Some? then rows[found.value] else QO.NewQuery(h, jobId, "", [], cfg, digest)
  }

  /** The query rows after `get_or_create_search_query`: a new row only when none matched. */
  function RowsAfter(rows: seq<QO.SearchQuery>, h: QO.Hypothesis, jobId: nat, cfg: QO.Config,
                     digest: string -> string): seq<QO.SearchQuery>
  {
    var found := QO.Find(rows, jobId, QO.Signature(h, cfg, digest));
    if found.Some? then rows else rows + [QO.NewQuery(h, jobId, "", [], cfg, digest)]
  }

  /** What one hypothesis writes: the run recorded (none or one), the papers persisted, the ids seen after. */
  datatype Step = Step(run: seq<Run>, papers: seq<Paper>, seen: set<nat>)

  /** One hypothesis of the stage, for its query and the ids seen before it. */
  function HypothesisStep(q: QO.SearchQuery, setup: Setup, seen: set<nat>): Step
  {
    var (due, reason) := QO.ShouldRun(q);
    var domain := DomainOf(q.resolvedDomain);
    var result := Scan(setup.providers, ProviderOrder(domain, setup.orders), q.queryText, setup.fetch, domain, []);
    if !due || result.FetchError? || result.candidates == [] then Step([], [], seen)
    else
      var vs := Verdicts(result.candidates, setup.judge);
      var ids := AcceptedIds(vs) + RejectedIds(vs);
      Step([Run(q.signature, setup.jobId, result.provider, reason, Fresh(seen, ids), AcceptedIds(vs), RejectedIds(vs))],
           PersistedPapers(vs), seen + Elems(ids))
  }

  /** A step records no run and sees nothing new, or records one run whose fresh ids it adds to `seen`. */
  lemma StepSeen(q: QO.SearchQuery, setup: Setup, seen: set<nat>)
    ensures var st := HypothesisStep(q, setup, seen);
      || (st.run == [] && st.seen == seen)
      || (|st.run| == 1 && st.run[0].fetched == Fresh(seen, st.run[0].accepted + st.run[0].rejected)
          && st.seen == seen + Elems(st.run[0].accepted + st.run[0].rejected))
  {
  }

  /**
   * A run is recorded exactly when the query is new and some provider of
   * its domain's order returns papers; the run names the first such
   * provider, the reason "Ready to execute", the accepted ids of the
   * persisted papers in order and, as fetched, the accepted and rejected
   * ids the job had not seen, each once. Without a run nothing is
   * persisted and no id is marked seen.
   */
  lemma HypothesisStepSpec(q: QO.SearchQuery, setup: Setup, seen: set<nat>)
    ensures var st := HypothesisStep(q, setup, seen);
      var order := ProviderOrder(DomainOf(q.resolvedDomain), setup.orders);
      && (st.run != [] <==>
            q.status == "new" && exists k :: 0 <= k < |order| && Hit(setup.providers, order[k], q.queryText, setup.fetch))
      && (st.run == [] ==> st.papers == [] && st.seen == seen)
      && (st.run != [] ==>
            |st.run| == 1
            && st.run[0].querySignature == q.signature && st.run[0].jobId == setup.jobId
            && st.run[0].reason == "Ready to execute"
            && (exists k :: 0 <= k < |order| && Hit(setup.providers, order[k], q.queryText, setup.fetch)
                  && st.run[0].provider == order[k]
                  && forall j :: 0 <= j < k ==> !Hit(setup.providers, order[j], q.queryText, setup.fetch))
            && st.run[0].fetched == Fresh(seen, st.run[0].accepted + st.run[0].rejected)
            && Distinct(st.run[0].fetched) && Elems(st.run[0].fetched) !! seen
            && st.seen == seen + Elems(st.run[0].accepted + st.run[0].rejected)
            && |st.run[0].accepted| == |st.papers|
            && forall i :: 0 <= i < |st.papers| ==> st.run[0].accepted[i] == st.papers[i].id)
  {
    var st := HypothesisStep(q, setup, seen);
    var domain := DomainOf(q.resolvedDomain);
    var result := Scan(setup.providers, ProviderOrder(domain, setup.orders), q.queryText, setup.fetch, domain, []);
    if st.run != [] {
      var vs := Verdicts(result.candidates, setup.judge);
      DedupAccounting(vs);
      FreshSpec(seen, AcceptedIds(vs) + RejectedIds(vs));
    }
  }

  /** The rows the stage leaves. */
  datatype Rows = Rows(rows: seq<QO.SearchQuery>, sources: seq<Source>, runs: seq<Run>)

  /** The stage over the hypotheses, one step after the other, from the rows and ids before it. */
  function StageFold(rows: seq<QO.SearchQuery>, sources: seq<Source>, runs: seq<Run>, seen: set<nat>,
                     targets: seq<QO.Hypothesis>, cfg: QO.Config, digest: string -> string, setup: Setup): (r: Rows)
    ensures sources <= r.sources && runs <= r.runs && |r.runs| <= |runs| + |targets|
    decreases |targets|
  {
    if targets == [] then Rows(rows, sources, runs)
    else
      var st := HypothesisStep(QueryFor(rows, targets[0], setup.jobId, cfg, digest), setup, seen);
      StageFold(RowsAfter(rows, targets[0], setup.jobId, cfg, digest),
                sources + NewSources(sources, setup.jobId, st.papers), runs + st.run, st.seen,
                targets[1..], cfg, digest, setup)
  }

  /**
   * The runs the stage adds fetched pairwise disjoint sets of ids, none
   * among the ids seen before the stage.
   */
  lemma {:induction false} StageFoldDisjoint(rows: seq<QO.SearchQuery>, sources: seq<Source>, runs: seq<Run>,
                                             seen: set<nat>, targets: seq<QO.Hypothesis>, cfg: QO.Config,
                                             digest: string -> string, setup: Setup, k: nat, seen0: set<nat>)
    requires k <= |runs| && RunsDisjoint(runs[k..], seen0) && seen0 <= seen
    requires forall a :: k <= a < |runs| ==> Elems(runs[a].fetched) <= seen
    ensures k <= |StageFold(rows, sources, runs, seen, targets, cfg, digest, setup).runs|
    ensures RunsDisjoint(StageFold(rows, sources, runs, seen, targets, cfg, digest, setup).runs[k..], seen0)
    decreases |targets|
  {
    if targets != [] {
      var q := QueryFor(rows, targets[0], setup.jobId, cfg, digest);
      var st := HypothesisStep(q, setup, seen);
      HypothesisStepSpec(q, setup, seen);
      var runs' := runs + st.run;
      if st.run != [] {
        var tail := runs[k..];
        assert forall a :: 0 <= a < |tail| ==> tail[a] == runs[k + a];
        AddRun(tail, st.run[0], seen0, seen);
        assert runs'[k..] == tail + [st.run[0]];
        forall a | k <= a < |runs'|
          ensures Elems(runs'[a].fetched) <= st.seen
        {
          if a < |runs| {
            assert runs'[a] == runs[a];
          } else {
            assert runs'[a] == st.run[0];
          }
        }
      } else {
        assert runs' == runs;
      }
      StageFoldDisjoint(RowsAfter(rows, targets[0], setup.jobId, cfg, digest),
                        sources + NewSources(sources, setup.jobId, st.papers), runs', st.seen,
                        targets[1..], cfg, digest, setup, k, seen0);
    }
  }

  /** A run whose ids are fresh against everything seen keeps the runs disjoint. */
  lemma AddRun(runs: seq<Run>, run: Run, seen0: set<nat>, seen: set<nat>)
    requires RunsDisjoint(runs, seen0) && seen0 <= seen
    requires forall a :: 0 <= a < |runs| ==> Elems(runs[a].fetched) <= seen
    requires run.fetched == Fresh(seen, run.accepted + run.rejected)
    ensures RunsDisjoint(runs + [run], seen0)
    ensures Elems(run.fetched) <= seen + Elems(run.accepted + run.rejected)
  {
    FreshSpec(seen, run.accepted + run.rejected);
    var t := runs + [run];
    assert t[|runs|] == run;
    forall a | 0 <= a < |runs|
      ensures Elems(runs[a].fetched) !! Elems(run.fetched)
    {
    }
    assert forall a :: 0 <= a < |runs| ==> t[a] == runs[a];
  }
}
