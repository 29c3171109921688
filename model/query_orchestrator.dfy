/**
 * The life cycle of the search queries of a job: a query is identified by
 * the job and a signature of its hypothesis's end points, is created once
 * with status "new", runs only while it is "new", and becomes "done" after
 * it ran. Verification mode plans up to three queries per hypothesis and
 * skips any whose entity list the job has already searched for.
 *
 * The query table is a sequence of rows held by `QueryStore`; a row added
 * by a call is visible to the checks made later in the same call. The two
 * hashes (SHA-256 hex digests) are parameters: `digest` for signatures and
 * `entityDigest` for entity lists (already cut to 16 characters).
 */
module QueryOrchestrator {
  import opened Common

  /** The part of a hypothesis the orchestrator reads. */
  datatype Hypothesis = Hypothesis(source: string, target: string, domain: Option<string>)

  /** `QueryOrchestratorConfig` */
  datatype Config = Config(signatureLength: int, initialReputation: int)

  /** A `SearchQuery` row. */
  datatype SearchQuery = SearchQuery(
    jobId: nat,
    signature: string,
    queryText: string,
    resolvedDomain: Option<string>,
    status: string,
    reputation: int,
    entitiesUsed: Option<seq<string>>,
    entitiesHash: Option<string>)

  /** `compute_hypothesis_signature` */
  function Signature(h: Hypothesis, cfg: Config, digest: string -> string): (r: string)
    ensures var d := digest(Lower(h.source) + "→" + Lower(h.target)); |r| <= |d| && r == d[..|r|]
    ensures cfg.signatureLength >= 0 ==> |r| <= cfg.signatureLength
  {
    PyPrefix(digest(Lower(h.source) + "→" + Lower(h.target)), cfg.signatureLength)
  }

  /** The signature depends on the end points only up to letter case. */
  lemma SignatureIgnoresCase(h: Hypothesis, cfg: Config, digest: string -> string)
    ensures Signature(h.(source := Lower(h.source), target := Lower(h.target)), cfg, digest)
      == Signature(h, cfg, digest)
  {
    LowerIdempotent(h.source);
    LowerIdempotent(h.target);
  }

  /** The text a query gets when the caller gives none. */
  function DefaultText(source: string, target: string): string
  {
    "relationship between " + source + " and " + target
  }

  /** `sub` occurs in `a + sub + b`. */
  lemma ContainsMiddle(a: string, sub: string, b: string)
    ensures Contains(a + sub + b, sub)
  {
    var s := a + sub + b;
    assert s[|a|..|a| + |sub|] == sub;
    assert OccursAt(s, sub, |a|);
  }

  /** Containment is transitive. */
  lemma ContainsTrans(s: string, t: string, u: string)
    requires Contains(s, t) && Contains(t, u)
    ensures Contains(s, u)
  {
    var i :| 0 <= i <= |s| - |t| && OccursAt(s, t, i);
    var j :| 0 <= j <= |t| - |u| && OccursAt(t, u, j);
    assert s[i..i + |t|] == t;
    assert forall m :: 0 <= m < |u| ==> s[i + j + m] == t[j + m] == u[m];
    assert s[i + j..i + j + |u|] == u;
    assert OccursAt(s, u, i + j);
  }

  /** Every part of a joined text occurs in it. */
  lemma {:induction false} JoinContains(parts: seq<string>, sep: string, k: nat)
    requires k < |parts|
    ensures Contains(Join(parts, sep), parts[k])
    decreases |parts|
  {
    if |parts| == 1 {
      ContainsMiddle("", parts[0], "");
      assert "" + parts[0] + "" == parts[0];
    } else if k == 0 {
      ContainsMiddle("", parts[0], sep + Join(parts[1..], sep));
      assert "" + parts[0] + (sep + Join(parts[1..], sep)) == Join(parts, sep);
    } else {
      JoinContains(parts[1..], sep, k - 1);
      var rest := Join(parts[1..], sep);
      ContainsMiddle(parts[0] + sep, rest, "");
      assert parts[0] + sep + rest + "" == Join(parts, sep);
      ContainsTrans(Join(parts, sep), rest, parts[k]);
    }
  }

  /** The query text `get_or_create_search_query` builds. */
  function QueryText(h: Hypothesis, queryText: string, focus: seq<string>): (r: string)
  {
    var base := if queryText == "" then DefaultText(h.source, h.target) else queryText;
    if focus == [] then base
    else "(" + base + ") AND (" + Join(focus, " OR ") + ")"
  }

  /** The text of an expanded query holds the base text and the joined focus areas. */
  lemma ExpandedHolds(base: string, joined: string)
    ensures var r := "(" + base + ") AND (" + joined + ")";
      Contains(r, base) && Contains(r, joined) && StartsWith(r, "(") && EndsWith(r, ")")
  {
    var r := "(" + base + ") AND (" + joined + ")";
    ContainsMiddle("(", base, ") AND (" + joined + ")");
    assert "(" + base + (") AND (" + joined + ")") == r;
    ContainsMiddle("(" + base + ") AND (", joined, ")");
    assert r[..1] == "(";
    assert r[|r| - 1..] == ")";
  }

  /**
   * Without focus areas the query is the caller's text, or the default
   * text when there is none; with focus areas it holds that text and
   * every focus area, and is parenthesised.
   */
  lemma QueryTextSpec(h: Hypothesis, queryText: string, focus: seq<string>)
    ensures var base := if queryText == "" then DefaultText(h.source, h.target) else queryText;
      var r := QueryText(h, queryText, focus);
      (focus == [] ==> r == base)
      && (focus != [] ==> Contains(r, base) && StartsWith(r, "(") && EndsWith(r, ")"))
      && (forall k :: 0 <= k < |focus| ==> Contains(r, focus[k]))
  {
    var base := if queryText == "" then DefaultText(h.source, h.target) else queryText;
    if focus != [] {
      var joined := Join(focus, " OR ");
      var r := QueryText(h, queryText, focus);
      assert r == "(" + base + ") AND (" + joined + ")";
      ExpandedHolds(base, joined);
      forall k | 0 <= k < |focus|
        ensures Contains(r, focus[k])
      {
        JoinContains(focus, " OR ", k);
        ContainsTrans(r, joined, focus[k]);
      }
    }
  }

  /** The first row of the job with the signature (`.first()`). */
  function Find(rows: seq<SearchQuery>, jobId: nat, signature: string): (r: Option<nat>)
    ensures r.Some? ==> r.value < |rows| && rows[r.value].jobId == jobId && rows[r.value].signature == signature
    ensures r.None? ==> forall i :: 0 <= i < |rows| ==> !(rows[i].jobId == jobId && rows[i].signature == signature)
    ensures r.Some? ==> forall i :: 0 <= i < r.value ==> !(rows[i].jobId == jobId && rows[i].signature == signature)
  {
    if rows == [] then None
    else if rows[0].jobId == jobId && rows[0].signature == signature then Some(0)
    else
      var t := Find(rows[1..], jobId, signature);
      if t.Some? then Some(t.value + 1) else None
  }

  /** A row appended after a miss is the one found next time. */
  lemma FindAppended(rows: seq<SearchQuery>, q: SearchQuery)
    requires Find(rows, q.jobId, q.signature).None?
    ensures Find(rows + [q], q.jobId, q.signature) == Some(|rows|)
  {
    var r := Find(rows + [q], q.jobId, q.signature);
    assert (rows + [q])[|rows|] == q;
  }

  /** The row `get_or_create_search_query` creates. */
  function NewQuery(h: Hypothesis, jobId: nat, queryText: string, focus: seq<string>, cfg: Config,
                    digest: string -> string): SearchQuery
  {
    SearchQuery(jobId, Signature(h, cfg, digest), QueryText(h, queryText, focus), h.domain, "new",
                cfg.initialReputation, None, None)
  }

  /** `should_run_query`: the flag and the reason. */
  function ShouldRun(q: SearchQuery): (r: (bool, string))
    ensures r.0 <==> q.status == "new"
    ensures r.0 ==> r.1 == "Ready to execute"
    ensures !r.0 ==> StartsWith(r.1, "Query already executed (status=")
  {
    if q.status == "new" then (true, "Ready to execute")
    else
      var reason := "Query already executed (status=" + q.status + ")";
      assert reason[..31] == "Query already executed (status=";
      (false, reason)
  }

  /** A job's query table. */
  class QueryStore {
    var rows: seq<SearchQuery>

    constructor(rows0: seq<SearchQuery>)
      ensures rows == rows0
    {
      rows := rows0;
    }

    /** `get_or_create_search_query` */
    method GetOrCreate(h: Hypothesis, jobId: nat, queryText: string, focus: seq<string>, cfg: Config,
                       digest: string -> string) returns (q: SearchQuery)
      modifies this
      ensures q.jobId == jobId && q.signature == Signature(h, cfg, digest)
      ensures var found := Find(old(rows), jobId, Signature(h, cfg, digest));
        (found.Some? ==> rows == old(rows) && q == old(rows)[found.value])
        && (found.None? ==> rows == old(rows) + [q] && q == NewQuery(h, jobId, queryText, focus, cfg, digest))
      ensures Find(rows, jobId, Signature(h, cfg, digest)).Some?
    {
      var signature := Signature(h, cfg, digest);
      var found := Find(rows, jobId, signature);
      if found.Some? {
        return rows[found.value];
      }
      q := NewQuery(h, jobId, queryText, focus, cfg, digest);
      FindAppended(rows, q);
      rows := rows + [q];
    }

    /** `update_search_query_status` */
    method MarkDone(i: nat)
      requires i < |rows|
      modifies this
      ensures rows == old(rows)[i := old(rows)[i].(status := "done")]
      ensures !ShouldRun(rows[i]).0
      ensures old(rows)[i].status == "done" ==> rows == old(rows)
    {
      rows := rows[i := rows[i].(status := "done")];
    }

    /** `create_verification_search_queries` */
    method CreateVerification(jobId: nat, source: string, target: string, cfg: Config,
                              domain: Option<string>, entityDigest: string -> string,
                              digest: string -> string) returns (created: seq<SearchQuery>)
      modifies this
      ensures rows == old(rows) + created
      ensures created == VerificationPlan(old(rows), jobId, source, target, cfg, domain, entityDigest, digest)
    {
      var ss := Strategies(source, target, digest);
      created := [];
      var k := 0;
      while k < 3
        invariant 0 <= k <= 3
        invariant rows == old(rows) + created
        invariant created == Planned(old(rows), ss, k, jobId, cfg, domain, entityDigest)
      {
        var added := StepFor(rows, ss[k], jobId, cfg, domain, entityDigest);
        created := created + added;
        rows := rows + added;
        k := k + 1;
      }
    }
  }

  /** One verification strategy: the entities, the text and the signature. */
  datatype Strategy = Strategy(entities: seq<string>, text: string, signature: string)

  /** The three strategies, in the order they are tried. */
  function Strategies(source: string, target: string, digest: string -> string): (r: seq<Strategy>)
    ensures |r| == 3
    ensures r[0].entities == [source, target] && r[1].entities == [source] && r[2].entities == [target]
  {
    [Strategy([source, target], DefaultText(source, target), PyPrefix(digest(source + "→" + target), 16)),
     Strategy([source], "related to " + source, PyPrefix(digest(source + "_single"), 16)),
     Strategy([target], "related to " + target, PyPrefix(digest(target + "_single"), 16))]
  }

  /** `compute_entities_hash` */
  function EntitiesHash(es: seq<string>, entityDigest: string -> string): string
  {
    entityDigest(Join(LowerAll(es), "|"))
  }

  /** `check_entities_duplicate` */
  predicate HashUsed(rows: seq<SearchQuery>, jobId: nat, hash: string)
  {
    exists i :: 0 <= i < |rows| && rows[i].jobId == jobId && rows[i].entitiesHash == Some(hash)
  }

  /** The row a strategy creates. */
  function StrategyQuery(s: Strategy, jobId: nat, cfg: Config, domain: Option<string>,
                         entityDigest: string -> string): SearchQuery
  {
    SearchQuery(jobId, s.signature, s.text, domain, "new", cfg.initialReputation,
                Some(s.entities), Some(EntitiesHash(s.entities, entityDigest)))
  }

  /** What one strategy adds: its row, unless its entities were searched for. */
  function StepFor(rows: seq<SearchQuery>, s: Strategy, jobId: nat, cfg: Config, domain: Option<string>,
                   entityDigest: string -> string): (r: seq<SearchQuery>)
    ensures r == [] <==> HashUsed(rows, jobId, EntitiesHash(s.entities, entityDigest))
    ensures r != [] ==> r == [StrategyQuery(s, jobId, cfg, domain, entityDigest)]
  {
    if HashUsed(rows, jobId, EntitiesHash(s.entities, entityDigest)) then []
    else [StrategyQuery(s, jobId, cfg, domain, entityDigest)]
  }

  /** The rows the first `k` strategies add, each seeing the rows added before it. */
  function Planned(rows: seq<SearchQuery>, ss: seq<Strategy>, k: nat, jobId: nat, cfg: Config,
                   domain: Option<string>, entityDigest: string -> string): seq<SearchQuery>
    requires k <= |ss|
  {
    if k == 0 then []
    else
      var before := Planned(rows, ss, k - 1, jobId, cfg, domain, entityDigest);
      before + StepFor(rows + before, ss[k - 1], jobId, cfg, domain, entityDigest)
  }

  /** The rows `create_verification_search_queries` creates, in order. */
  function VerificationPlan(rows: seq<SearchQuery>, jobId: nat, source: string, target: string, cfg: Config,
                            domain: Option<string>, entityDigest: string -> string,
                            digest: string -> string): seq<SearchQuery>
  {
    Planned(rows, Strategies(source, target, digest), 3, jobId, cfg, domain, entityDigest)
  }

  /** The row each strategy would create, in strategy order. */
  function StrategyQueries(ss: seq<Strategy>, jobId: nat, cfg: Config, domain: Option<string>,
                           entityDigest: string -> string): (r: seq<SearchQuery>)
    ensures |r| == |ss|
    ensures forall i :: 0 <= i < |ss| ==> r[i] == StrategyQuery(ss[i], jobId, cfg, domain, entityDigest)
  {
    seq(|ss|, i requires 0 <= i < |ss| => StrategyQuery(ss[i], jobId, cfg, domain, entityDigest))
  }

  /** `a` is `b` with some elements left out, order kept. */
  predicate IsSubsequence<T(==)>(a: seq<T>, b: seq<T>)
    decreases |b|
  {
    if b == [] then a == []
    else
      (a != [] && a[|a| - 1] == b[|b| - 1] && IsSubsequence(a[..|a| - 1], b[..|b| - 1]))
      || IsSubsequence(a, b[..|b| - 1])
  }

  /**
   * The planned rows are the strategies' rows in strategy order, some left
   * out; each is a "new" query of the job at the initial reputation.
   */
  lemma {:induction false} PlannedInOrder(rows: seq<SearchQuery>, ss: seq<Strategy>, k: nat, jobId: nat, cfg: Config,
                                          domain: Option<string>, entityDigest: string -> string)
    requires k <= |ss|
    ensures IsSubsequence(Planned(rows, ss, k, jobId, cfg, domain, entityDigest),
                          StrategyQueries(ss[..k], jobId, cfg, domain, entityDigest))
  {
    if k > 0 {
      var before := Planned(rows, ss, k - 1, jobId, cfg, domain, entityDigest);
      var p := Planned(rows, ss, k, jobId, cfg, domain, entityDigest);
      var qs := StrategyQueries(ss[..k], jobId, cfg, domain, entityDigest);
      PlannedInOrder(rows, ss, k - 1, jobId, cfg, domain, entityDigest);
      assert ss[..k][..k - 1] == ss[..k - 1];
      assert qs[..k - 1] == StrategyQueries(ss[..k - 1], jobId, cfg, domain, entityDigest);
      var added := StepFor(rows + before, ss[k - 1], jobId, cfg, domain, entityDigest);
      if added == [] {
        assert p == before;
      } else {
        assert p[..|p| - 1] == before;
      }
    }
  }

  /** A row in a table stays in any longer table. */
  lemma HashUsedGrows(rows: seq<SearchQuery>, more: seq<SearchQuery>, jobId: nat, hash: string)
    requires HashUsed(rows, jobId, hash)
    ensures HashUsed(rows + more, jobId, hash)
  {
    var i :| 0 <= i < |rows| && rows[i].jobId == jobId && rows[i].entitiesHash == Some(hash);
    assert (rows + more)[i] == rows[i];
  }

  /** After planning the first `k` strategies, each of their entity lists is in use. */
  lemma {:induction false} PlannedCovers(rows: seq<SearchQuery>, ss: seq<Strategy>, k: nat, jobId: nat, cfg: Config,
                                         domain: Option<string>, entityDigest: string -> string)
    requires k <= |ss|
    ensures forall j :: 0 <= j < k ==>
      HashUsed(rows + Planned(rows, ss, k, jobId, cfg, domain, entityDigest), jobId, EntitiesHash(ss[j].entities, entityDigest))
  {
    if k > 0 {
      var before := Planned(rows, ss, k - 1, jobId, cfg, domain, entityDigest);
      var added := StepFor(rows + before, ss[k - 1], jobId, cfg, domain, entityDigest);
      var h := EntitiesHash(ss[k - 1].entities, entityDigest);
      PlannedCovers(rows, ss, k - 1, jobId, cfg, domain, entityDigest);
      assert rows + Planned(rows, ss, k, jobId, cfg, domain, entityDigest) == (rows + before) + added;
      forall j | 0 <= j < k - 1
        ensures HashUsed((rows + before) + added, jobId, EntitiesHash(ss[j].entities, entityDigest))
      {
        HashUsedGrows(rows + before, added, jobId, EntitiesHash(ss[j].entities, entityDigest));
      }
      if added == [] {
        assert (rows + before) + added == rows + before;
      } else {
        assert ((rows + before) + added)[|rows + before|] == StrategyQuery(ss[k - 1], jobId, cfg, domain, entityDigest);
      }
    }
  }

  lemma EmptySuffix<T>(rows: seq<T>, more: seq<T>)
    requires more == []
    ensures rows + more == rows
  {
  }

  /** The entity lists of the first `k` strategies are all in use. */
  predicate AllUsed(rows: seq<SearchQuery>, ss: seq<Strategy>, k: nat, jobId: nat, entityDigest: string -> string)
    requires k <= |ss|
  {
    k == 0 || (AllUsed(rows, ss, k - 1, jobId, entityDigest) && HashUsed(rows, jobId, EntitiesHash(ss[k - 1].entities, entityDigest)))
  }

  /** Planning against a table where every entity list is in use adds nothing. */
  lemma {:induction false} PlannedNothing(rows: seq<SearchQuery>, ss: seq<Strategy>, k: nat, jobId: nat, cfg: Config,
                                          domain: Option<string>, entityDigest: string -> string)
    requires k <= |ss|
    requires AllUsed(rows, ss, k, jobId, entityDigest)
    ensures Planned(rows, ss, k, jobId, cfg, domain, entityDigest) == []
  {
    if k > 0 {
      PlannedNothing(rows, ss, k - 1, jobId, cfg, domain, entityDigest);
      PlannedNothingStep(rows, ss, k, jobId, cfg, domain, entityDigest);
    }
  }

  lemma PlannedNothingStep(rows: seq<SearchQuery>, ss: seq<Strategy>, k: nat, jobId: nat, cfg: Config,
                           domain: Option<string>, entityDigest: string -> string)
    requires 0 < k <= |ss|
    requires Planned(rows, ss, k - 1, jobId, cfg, domain, entityDigest) == []
    requires HashUsed(rows, jobId, EntitiesHash(ss[k - 1].entities, entityDigest))
    ensures Planned(rows, ss, k, jobId, cfg, domain, entityDigest) == []
  {
    EmptySuffix(rows, Planned(rows, ss, k - 1, jobId, cfg, domain, entityDigest));
  }

  /**
   * The verification queries are the rows of the [source, target], [source]
   * and [target] strategies in that order, some skipped; every one is a
   * "new" query of the job at the initial reputation in the given domain.
   */
  lemma VerificationInOrder(rows: seq<SearchQuery>, jobId: nat, source: string, target: string, cfg: Config,
                            domain: Option<string>, entityDigest: string -> string, digest: string -> string)
    ensures var plan := VerificationPlan(rows, jobId, source, target, cfg, domain, entityDigest, digest);
      IsSubsequence(plan, StrategyQueries(Strategies(source, target, digest), jobId, cfg, domain, entityDigest))
  {
    var ss := Strategies(source, target, digest);
    PlannedInOrder(rows, ss, 3, jobId, cfg, domain, entityDigest);
    assert ss[..3] == ss;
  }

  /** Creating the verification queries a second time creates none. */
  lemma VerificationIdempotent(rows: seq<SearchQuery>, jobId: nat, source: string, target: string, cfg: Config,
                               domain: Option<string>, entityDigest: string -> string, digest: string -> string)
    ensures var plan := VerificationPlan(rows, jobId, source, target, cfg, domain, entityDigest, digest);
      VerificationPlan(rows + plan, jobId, source, target, cfg, domain, entityDigest, digest) == []
  {
    var ss := Strategies(source, target, digest);
    PlannedCovers(rows, ss, 3, jobId, cfg, domain, entityDigest);
    var plan := VerificationPlan(rows, jobId, source, target, cfg, domain, entityDigest, digest);
    var all := rows + plan;
    assert HashUsed(all, jobId, EntitiesHash(ss[0].entities, entityDigest));
    assert HashUsed(all, jobId, EntitiesHash(ss[1].entities, entityDigest));
    assert HashUsed(all, jobId, EntitiesHash(ss[2].entities, entityDigest));
    assert AllUsed(all, ss, 1, jobId, entityDigest);
    assert AllUsed(all, ss, 2, jobId, entityDigest);
    assert AllUsed(all, ss, 3, jobId, entityDigest);
    PlannedNothing(rows + plan, ss, 3, jobId, cfg, domain, entityDigest);
  }

  /**
   * A job that has searched for none of the three entity lists, whose
   * hashes differ, gets all three queries.
   */
  lemma VerificationFresh(rows: seq<SearchQuery>, jobId: nat, source: string, target: string, cfg: Config,
                          domain: Option<string>, entityDigest: string -> string, digest: string -> string)
    requires forall j :: 0 <= j < 3 ==>
      !HashUsed(rows, jobId, EntitiesHash(Strategies(source, target, digest)[j].entities, entityDigest))
    requires EntitiesHash([source], entityDigest) != EntitiesHash([source, target], entityDigest)
    requires EntitiesHash([target], entityDigest) != EntitiesHash([source, target], entityDigest)
    requires EntitiesHash([target], entityDigest) != EntitiesHash([source], entityDigest)
    ensures VerificationPlan(rows, jobId, source, target, cfg, domain, entityDigest, digest)
      == StrategyQueries(Strategies(source, target, digest), jobId, cfg, domain, entityDigest)
  {
    var ss := Strategies(source, target, digest);
    var q0 := StrategyQuery(ss[0], jobId, cfg, domain, entityDigest);
    var q1 := StrategyQuery(ss[1], jobId, cfg, domain, entityDigest);
    var q2 := StrategyQuery(ss[2], jobId, cfg, domain, entityDigest);
    assert Planned(rows, ss, 1, jobId, cfg, domain, entityDigest) == [q0];
    NotUsedAfter(rows, [q0], jobId, EntitiesHash(ss[1].entities, entityDigest));
    assert Planned(rows, ss, 2, jobId, cfg, domain, entityDigest) == [q0, q1];
    NotUsedAfter(rows, [q0, q1], jobId, EntitiesHash(ss[2].entities, entityDigest));
    assert Planned(rows, ss, 3, jobId, cfg, domain, entityDigest) == [q0, q1, q2];
  }

  /** A hash absent from a table and from the added rows is absent from both. */
  lemma NotUsedAfter(rows: seq<SearchQuery>, more: seq<SearchQuery>, jobId: nat, hash: string)
    requires !HashUsed(rows, jobId, hash)
    requires forall i :: 0 <= i < |more| ==> more[i].entitiesHash != Some(hash)
    ensures !HashUsed(rows + more, jobId, hash)
  {
  }
}
