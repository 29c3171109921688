/**
 * Versioned storage of hypotheses. The `hypotheses` table is a sequence of
 * rows in insertion order. The domain resolver and the clock are inputs;
 * the impact-score update that follows a persist is not part of this model.
 */
module HypothesisPersistence {
  import opened Common

  datatype HypRow = HypRow(
    jobId: int, source: string, target: string, path: seq<string>,
    confidence: int, passedFilter: bool, domain: Option<string>,
    version: int, isActive: bool,
    /** `affected_by_nodes`: the nodes that caused a rebuild, `None` for NULL. */
    affectedBy: Option<set<string>>,
    createdAt: int)

  /** The fields of one hypothesis dict that the table keeps. */
  datatype HypInput = HypInput(
    source: string, target: string, path: seq<string>, confidence: int,
    passedFilter: bool, domain: Option<string>)

  /** `set(path) & affected_nodes` */
  function Hits(path: seq<string>, affected: set<string>): (r: set<string>)
    ensures forall n :: n in r <==> n in path && n in affected
  {
    (set n | n in path) * affected
  }

  /**
   * Whether `deactivate_hypotheses_for_job` switches a row off. An empty
   * `affected` stands for both `None` and an empty set: either is falsy
   * and switches off every active row of the job.
   */
  predicate Hit(r: HypRow, jobId: int, affected: set<string>)
  {
    r.jobId == jobId && r.isActive && (affected == {} || Hits(r.path, affected) != {})
  }

  function DeactivateRow(r: HypRow, jobId: int, affected: set<string>): HypRow
  {
    if !Hit(r, jobId, affected) then r
    else if affected == {} then r.(isActive := false)
    else r.(isActive := false, affectedBy := Some(Hits(r.path, affected)))
  }

  function Deactivated(rs: seq<HypRow>, jobId: int, affected: set<string>): (out: seq<HypRow>)
    ensures |out| == |rs|
    ensures forall i :: 0 <= i < |rs| ==> out[i] == DeactivateRow(rs[i], jobId, affected)
  {
    seq(|rs|, i requires 0 <= i < |rs| => DeactivateRow(rs[i], jobId, affected))
  }

  /** The number of rows a deactivation switches off. */
  function HitCount(rs: seq<HypRow>, jobId: int, affected: set<string>): (n: nat)
    ensures n <= |rs|
  {
    if rs == [] then 0
    else HitCount(rs[..|rs| - 1], jobId, affected) + if Hit(rs[|rs| - 1], jobId, affected) then 1 else 0
  }

  /**
   * With affected nodes only the job's active rows whose path meets them are
   * switched off, each recording exactly the nodes it meets; without, all
   * the job's active rows are switched off. Nothing else changes.
   */
  lemma DeactivatedSpec(rs: seq<HypRow>, jobId: int, affected: set<string>)
    ensures var out := Deactivated(rs, jobId, affected);
      && (forall i :: 0 <= i < |rs| ==> out[i].jobId == jobId ==> !out[i].isActive || (affected != {} && Hits(rs[i].path, affected) == {}))
      && (forall i :: 0 <= i < |rs| && !Hit(rs[i], jobId, affected) ==> out[i] == rs[i])
      && (forall i :: 0 <= i < |rs| && Hit(rs[i], jobId, affected) && affected != {} ==>
            out[i] == rs[i].(isActive := false, affectedBy := Some(Hits(rs[i].path, affected))))
      && (forall i :: 0 <= i < |rs| ==> out[i].version == rs[i].version && out[i].jobId == rs[i].jobId)
  {
  }

  /** The largest version of any row of the job, active or not. */
  function MaxVersion(rs: seq<HypRow>, jobId: int): (m: Option<int>)
    ensures m.None? <==> forall i :: 0 <= i < |rs| ==> rs[i].jobId != jobId
    ensures m.Some? ==>
      && (forall i :: 0 <= i < |rs| && rs[i].jobId == jobId ==> rs[i].version <= m.value)
      && exists i :: 0 <= i < |rs| && rs[i].jobId == jobId && rs[i].version == m.value
  {
    if rs == [] then None
    else
      var m := MaxVersion(rs[..|rs| - 1], jobId);
      var last := rs[|rs| - 1];
      if last.jobId != jobId then m
      else if m.None? || last.version > m.value then Some(last.version)
      else m
  }

  /** `next_version` */
  function NextVersion(rs: seq<HypRow>, jobId: int): int
  {
    match MaxVersion(rs, jobId)
    case None => 1
    case Some(m) => m + 1
  }

  /** The row inserted for one hypothesis. `resolve` stands for `resolve_domain`. */
  function NewRow(jobId: int, h: HypInput, version: int, affected: set<string>,
                  resolve: HypInput -> Option<string>, now: int): HypRow
  {
    HypRow(jobId, h.source, h.target, h.path, h.confidence, h.passedFilter,
      if h.domain.Some? then h.domain else resolve(h),
      version, true,
      if affected == {} then None else Some(Hits(h.path, affected)),
      now)
  }

  /**
   * Every inserted row is active and has the same version, one past every
   * version the job had; a hypothesis that brings its own domain keeps it,
   * and only the others are resolved.
   */
  lemma NewRowsSpec(rs: seq<HypRow>, jobId: int, hs: seq<HypInput>, affected: set<string>,
                    resolve: HypInput -> Option<string>, now: int)
    ensures var v := NextVersion(rs, jobId);
      && (forall i :: 0 <= i < |rs| && rs[i].jobId == jobId ==> rs[i].version < v)
      && (forall i :: 0 <= i < |hs| ==>
            NewRow(jobId, hs[i], v, affected, resolve, now).isActive && NewRow(jobId, hs[i], v, affected, resolve, now).version == v)
      && (forall i :: 0 <= i < |hs| && hs[i].domain.Some? ==> NewRow(jobId, hs[i], v, affected, resolve, now).domain == hs[i].domain)
  {
  }

  // ---------------------------------------------------------------------
  // `get_hypotheses`: active rows, best confidence first, newest first on ties
  // ---------------------------------------------------------------------

  predicate Before(a: HypRow, b: HypRow)
  {
    a.confidence > b.confidence || (a.confidence == b.confidence && a.createdAt >= b.createdAt)
  }

  predicate Ordered(s: seq<HypRow>)
  {
    forall i :: 0 <= i < |s| - 1 ==> Before(s[i], s[i + 1])
  }

  function InsertRow(s: seq<HypRow>, x: HypRow): (r: seq<HypRow>)
    requires Ordered(s)
    ensures Ordered(r)
    ensures multiset(r) == multiset(s) + multiset{x}
    ensures r[0] == x || (s != [] && r[0] == s[0])
  {
    if s == [] then [x]
    else if Before(x, s[0]) then [x] + s
    else
      assert s == [s[0]] + s[1..];
      [s[0]] + InsertRow(s[1..], x)
  }

  function SortRows(s: seq<HypRow>): (r: seq<HypRow>)
    ensures Ordered(r)
    ensures multiset(r) == multiset(s)
  {
    if s == [] then []
    else
      assert s == s[..|s| - 1] + [s[|s| - 1]];
      InsertRow(SortRows(s[..|s| - 1]), s[|s| - 1])
  }

  predicate Listed(r: HypRow, jobId: int, includeRejected: bool)
  {
    r.jobId == jobId && r.isActive && (includeRejected || r.passedFilter)
  }

  function ListedRows(rs: seq<HypRow>, jobId: int, includeRejected: bool): (out: seq<HypRow>)
    ensures forall r :: r in out <==> r in rs && Listed(r, jobId, includeRejected)
  {
    if rs == [] then []
    else
      var rest := ListedRows(rs[..|rs| - 1], jobId, includeRejected);
      var last := rs[|rs| - 1];
      assert forall r :: r in rs <==> r in rs[..|rs| - 1] || r == last by {
        assert rs == rs[..|rs| - 1] + [last];
      }
      if Listed(last, jobId, includeRejected) then rest + [last] else rest
  }

  /** `.limit(limit).offset(offset)`: at most `limit` rows after skipping `offset`. */
  function Page<T>(s: seq<T>, limit: nat, offset: nat): (r: seq<T>)
    ensures |r| <= limit
    ensures offset >= |s| ==> r == []
    ensures offset < |s| ==> r == s[offset..if offset + limit <= |s| then offset + limit else |s|]
  {
    if offset >= |s| then []
    else if offset + limit <= |s| then s[offset..offset + limit]
    else s[offset..]
  }

  class HypothesisStore {
    var rows: seq<HypRow>

    constructor()
      ensures rows == []
    {
      rows := [];
    }

    /** `deactivate_hypotheses_for_job`: switches rows off and counts them. */
    method Deactivate(jobId: int, affected: set<string>) returns (count: nat)
      modifies this
      ensures rows == Deactivated(old(rows), jobId, affected)
      ensures count == HitCount(old(rows), jobId, affected)
    {
      ghost var rs := rows;
      count := 0;
      var i := 0;
      while i < |rows|
        invariant 0 <= i <= |rows| == |rs|
        invariant forall j :: 0 <= j < i ==> rows[j] == DeactivateRow(rs[j], jobId, affected)
        invariant forall j :: i <= j < |rows| ==> rows[j] == rs[j]
        invariant count == HitCount(rs[..i], jobId, affected)
      {
        assert rs[..i + 1][..i] == rs[..i];
        if Hit(rows[i], jobId, affected) {
          rows := rows[i := DeactivateRow(rows[i], jobId, affected)];
          count := count + 1;
        }
        i := i + 1;
      }
      assert rs[..i] == rs;
    }

    /**
     * `persist_hypotheses`: deactivates, then appends one active row per
     * hypothesis with the next version, and returns how many it inserted.
     */
    method Persist(jobId: int, hs: seq<HypInput>, affected: set<string>,
                   resolve: HypInput -> Option<string>, now: int) returns (inserted: nat)
      modifies this
      ensures var pre := Deactivated(old(rows), jobId, affected);
        && |rows| == |pre| + |hs|
        && rows[..|pre|] == pre
        && forall i :: 0 <= i < |hs| ==> rows[|pre| + i] == NewRow(jobId, hs[i], NextVersion(old(rows), jobId), affected, resolve, now)
      ensures inserted == |hs|
    {
      var _ := Deactivate(jobId, affected);
      ghost var pre := rows;
      var nextVersion := NextVersion(rows, jobId);
      assert nextVersion == NextVersion(old(rows), jobId) by {
        assert MaxVersion(rows, jobId) == MaxVersion(old(rows), jobId) by {
          SameVersions(old(rows), rows, jobId);
        }
      }
      inserted := 0;
      for i := 0 to |hs|
        invariant |rows| == |pre| + i && rows[..|pre|] == pre
        invariant forall j :: 0 <= j < i ==> rows[|pre| + j] == NewRow(jobId, hs[j], nextVersion, affected, resolve, now)
        invariant inserted == i
      {
        rows := rows + [NewRow(jobId, hs[i], nextVersion, affected, resolve, now)];
        inserted := inserted + 1;
      }
    }

    /** `get_hypotheses` */
    function Get(jobId: int, limit: nat, offset: nat, includeRejected: bool): (r: seq<HypRow>)
      reads this
      ensures Ordered(r)
      ensures |r| <= limit
      ensures forall x :: x in r ==> x in rows && Listed(x, jobId, includeRejected)
      ensures offset == 0 && limit >= |ListedRows(rows, jobId, includeRejected)| ==>
        multiset(r) == multiset(ListedRows(rows, jobId, includeRejected))
    {
      var listed := ListedRows(rows, jobId, includeRejected);
      SortedPage(listed, limit, offset);
      Page(SortRows(listed), limit, offset)
    }
  }

  /** A page of the sorted rows is ordered, drawn from them, and all of them when it starts at 0 and is long enough. */
  lemma SortedPage(listed: seq<HypRow>, limit: nat, offset: nat)
    ensures var r := Page(SortRows(listed), limit, offset);
      && Ordered(r)
      && (forall x :: x in r ==> x in listed)
      && (offset == 0 && limit >= |listed| ==> multiset(r) == multiset(listed))
  {
    var sorted := SortRows(listed);
    SameElements(sorted, listed);
    PageOrdered(sorted, limit, offset);
    PageMembers(sorted, limit, offset);
  }

  lemma SameElements<T>(a: seq<T>, b: seq<T>)
    requires multiset(a) == multiset(b)
    ensures |a| == |b| && forall x :: x in a ==> x in b
  {
    assert |multiset(a)| == |multiset(b)|;
    forall x | x in a ensures x in b {
      assert x in multiset(a);
    }
  }

  lemma PageOrdered(s: seq<HypRow>, limit: nat, offset: nat)
    requires Ordered(s)
    ensures Ordered(Page(s, limit, offset))
  {
    var r := Page(s, limit, offset);
    forall i | 0 <= i < |r| - 1 ensures Before(r[i], r[i + 1]) {
      assert r[i] == s[offset + i] && r[i + 1] == s[offset + i + 1];
    }
  }

  lemma PageMembers<T>(s: seq<T>, limit: nat, offset: nat)
    ensures forall x :: x in Page(s, limit, offset) ==> x in s
    ensures offset == 0 && limit >= |s| ==> Page(s, limit, offset) == s
  {
    var r := Page(s, limit, offset);
    forall x | x in r ensures x in s {
      var i :| 0 <= i < |r| && r[i] == x;
      assert s[offset + i] == x;
    }
  }

  /** Rows with the same job and version columns have the same largest version. */
  lemma {:induction false} SameVersions(a: seq<HypRow>, b: seq<HypRow>, jobId: int)
    requires |a| == |b|
    requires forall i :: 0 <= i < |a| ==> a[i].jobId == b[i].jobId && a[i].version == b[i].version
    ensures MaxVersion(a, jobId) == MaxVersion(b, jobId)
  {
    if a != [] {
      SameVersions(a[..|a| - 1], b[..|b| - 1], jobId);
    }
  }
}
