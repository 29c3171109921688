/**
 * Versioned storage of semantic graphs. The `semantic_graphs` table is a
 * sequence of records in insertion order; a query's `first()` is the first
 * matching record in that order. A graph's nodes and edges are kept as
 * opaque serialized items.
 */
module GraphPersistence {
  import opened Common

  /** The argument of `persist_semantic_graph`: a dict whose keys may be missing, or something else. */
  datatype GraphInput =
    | NotADict
    | GraphDict(nodes: Option<seq<string>>, edges: Option<seq<string>>)

  datatype GraphRecord = GraphRecord(
    jobId: int, nodes: seq<string>, edges: seq<string>,
    nodeCount: int, edgeCount: int, version: int, isActive: bool)

  /** The two `ValueError` checks that come before any database access. */
  function ValidateGraph(g: GraphInput): (r: Outcome<(seq<string>, seq<string>)>)
    ensures r.Failure? <==> g.NotADict? || g.nodes.None? || g.edges.None?
    ensures r.Success? ==> r.value == (g.nodes.value, g.edges.value)
  {
    if g.NotADict? then Failure("ValueError: semantic_graph must be dict")
    else if g.nodes.None? || g.edges.None? then Failure("ValueError: semantic_graph must contain 'nodes' and 'edges' keys")
    else Success((g.nodes.value, g.edges.value))
  }

  predicate ActiveFor(r: GraphRecord, jobId: int)
  {
    r.jobId == jobId && r.isActive
  }

  /** The first active record of the job. */
  function FirstActive(rs: seq<GraphRecord>, jobId: int): (r: Option<nat>)
    ensures r.None? <==> forall i :: 0 <= i < |rs| ==> !ActiveFor(rs[i], jobId)
    ensures r.Some? ==>
      && r.value < |rs| && ActiveFor(rs[r.value], jobId)
      && forall i :: 0 <= i < r.value ==> !ActiveFor(rs[i], jobId)
  {
    if rs == [] then None
    else if ActiveFor(rs[0], jobId) then Some(0)
    else
      var t := FirstActive(rs[1..], jobId);
      if t.Some? then Some(t.value + 1) else None
  }

  /** The documented invariant: at most one active record per job. */
  ghost predicate SingleActive(rs: seq<GraphRecord>)
  {
    forall i, j :: 0 <= i < |rs| && 0 <= j < |rs| && rs[i].isActive && rs[j].isActive && rs[i].jobId == rs[j].jobId ==> i == j
  }

  /** The version `persist_semantic_graph` gives the new record: the active one's plus one, else 1. */
  function NextVersion(rs: seq<GraphRecord>, jobId: int): int
  {
    match FirstActive(rs, jobId)
    case None => 1
    case Some(i) => rs[i].version + 1
  }

  /** The table after a successful persist as written: the active record, if any, deactivated, then the new one. */
  function Persisted(rs: seq<GraphRecord>, jobId: int, nodes: seq<string>, edges: seq<string>): seq<GraphRecord>
  {
    var deactivated := match FirstActive(rs, jobId)
      case None => rs
      case Some(i) => rs[i := rs[i].(isActive := false)];
    deactivated + [GraphRecord(jobId, nodes, edges, |nodes|, |edges|, NextVersion(rs, jobId), true)]
  }

  /** Every record of the job inactive, the others untouched. */
  function DeactivatedAll(rs: seq<GraphRecord>, jobId: int): (r: seq<GraphRecord>)
    ensures |r| == |rs|
    ensures forall i :: 0 <= i < |rs| ==> r[i] == if rs[i].jobId == jobId then rs[i].(isActive := false) else rs[i]
  {
    seq(|rs|, i requires 0 <= i < |rs| => if rs[i].jobId == jobId then rs[i].(isActive := false) else rs[i])
  }

  /**
   * After a persist exactly one record of the job is active: the new last
   * one, carrying the counts of its lists and the next version; every
   * record before it is kept, only the previously active one deactivated.
   */
  lemma PersistedSpec(rs: seq<GraphRecord>, jobId: int, nodes: seq<string>, edges: seq<string>)
    requires SingleActive(rs)
    ensures var out := Persisted(rs, jobId, nodes, edges);
      && |out| == |rs| + 1
      && SingleActive(out)
      && out[|rs|] == GraphRecord(jobId, nodes, edges, |nodes|, |edges|, NextVersion(rs, jobId), true)
      && (forall i :: 0 <= i < |out| ==> (ActiveFor(out[i], jobId) <==> i == |rs|))
      && (forall i :: 0 <= i < |rs| ==> out[i] == rs[i] || (ActiveFor(rs[i], jobId) && out[i] == rs[i].(isActive := false)))
  {
    var out := Persisted(rs, jobId, nodes, edges);
    var f := FirstActive(rs, jobId);
    forall i | 0 <= i < |rs| ensures !ActiveFor(out[i], jobId) {
      if f.Some? && i != f.value {
        assert !ActiveFor(rs[i], jobId);
      }
    }
    forall i, j | 0 <= i < |out| && 0 <= j < |out| && out[i].isActive && out[j].isActive && out[i].jobId == out[j].jobId
      ensures i == j
    {
      if i < |rs| && j < |rs| {
        assert rs[i].isActive && rs[j].isActive;
      }
    }
  }

  /** Without an earlier active record the new version is 1; otherwise one more than that record's. */
  lemma NextVersionSpec(rs: seq<GraphRecord>, jobId: int)
    ensures (forall i :: 0 <= i < |rs| ==> !ActiveFor(rs[i], jobId)) ==> NextVersion(rs, jobId) == 1
    ensures forall i :: 0 <= i < |rs| && ActiveFor(rs[i], jobId) && SingleActive(rs) ==> NextVersion(rs, jobId) == rs[i].version + 1
  {
  }

  /** Matching a record for `get_semantic_graph`: the active one, or the given version active or not. */
  predicate Matches(r: GraphRecord, jobId: int, version: Option<int>)
  {
    r.jobId == jobId && (if version.None? then r.isActive else r.version == version.value)
  }

  /** `query.first()` */
  function FirstMatch(rs: seq<GraphRecord>, jobId: int, version: Option<int>): (r: Option<nat>)
    ensures r.None? <==> forall i :: 0 <= i < |rs| ==> !Matches(rs[i], jobId, version)
    ensures r.Some? ==>
      && r.value < |rs| && Matches(rs[r.value], jobId, version)
      && forall i :: 0 <= i < r.value ==> !Matches(rs[i], jobId, version)
  {
    if rs == [] then None
    else if Matches(rs[0], jobId, version) then Some(0)
    else
      var t := FirstMatch(rs[1..], jobId, version);
      if t.Some? then Some(t.value + 1) else None
  }

  class SemanticGraphStore {
    var records: seq<GraphRecord>

    constructor()
      ensures records == []
    {
      records := [];
    }

    /**
     * `persist_semantic_graph`: a rejected argument leaves the table as it
     * was; otherwise the active record is deactivated and the new one appended.
     */
    method Persist(jobId: int, g: GraphInput) returns (r: Outcome<GraphRecord>)
      modifies this
      ensures r.Failure? <==> ValidateGraph(g).Failure?
      ensures r.Failure? ==> records == old(records)
      ensures r.Success? ==>
        && records == Persisted(old(records), jobId, g.nodes.value, g.edges.value)
        && r.value == records[|records| - 1]
    {
      var v := ValidateGraph(g);
      if v.Failure? {
        return Failure(v.error);
      }
      var (nodes, edges) := v.value;
      var existing := FirstActive(records, jobId);
      var nextVersion := 1;
      if existing.Some? {
        var i := existing.value;
        records := records[i := records[i].(isActive := false)];
        nextVersion := records[i].version + 1;
      }
      var record := GraphRecord(jobId, nodes, edges, |nodes|, |edges|, nextVersion, true);
      records := records + [record];
      r := Success(record);
    }

    /** `get_semantic_graph`: the first matching record's nodes and edges, `None` when there is none. */
    function Get(jobId: int, version: Option<int>): (r: Option<(seq<string>, seq<string>)>)
      reads this
      ensures r.None? <==> forall i :: 0 <= i < |records| ==> !Matches(records[i], jobId, version)
      ensures r.Some? ==> exists i ::
        && 0 <= i < |records| && Matches(records[i], jobId, version)
        && r.value == (records[i].nodes, records[i].edges)
    {
      match FirstMatch(records, jobId, version)
      case None => None
      case Some(i) => Some((records[i].nodes, records[i].edges))
    }

    /** `get_active_semantic_version` */
    function ActiveVersion(jobId: int): (r: Option<int>)
      reads this
      ensures r.None? <==> forall i :: 0 <= i < |records| ==> !ActiveFor(records[i], jobId)
      ensures r.Some? ==> exists i :: 0 <= i < |records| && ActiveFor(records[i], jobId) && r.value == records[i].version
    {
      match FirstActive(records, jobId)
      case None => None
      case Some(i) => Some(records[i].version)
    }

    /** `delete_semantic_graph`: a soft delete that reports whether anything was active. */
    method Delete(jobId: int) returns (found: bool)
      modifies this
      ensures found <==> exists i :: 0 <= i < |old(records)| && ActiveFor(old(records)[i], jobId)
      ensures records == DeactivatedAll(old(records), jobId)
    {
      found := FirstActive(records, jobId).Some?;
      if found {
        var i := 0;
        ghost var rs := records;
        while i < |records|
          invariant 0 <= i <= |records| == |rs|
          invariant forall j :: 0 <= j < i ==> records[j] == DeactivatedAll(rs, jobId)[j]
          invariant forall j :: i <= j < |records| ==> records[j] == rs[j]
        {
          if ActiveFor(records[i], jobId) {
            records := records[i := records[i].(isActive := false)];
          }
          i := i + 1;
        }
        assert records == DeactivatedAll(rs, jobId);
      } else {
        assert records == DeactivatedAll(records, jobId);
      }
    }
  }

  /** After a delete the job has no active record, so a default read finds nothing. */
  lemma DeleteLeavesNoActive(rs: seq<GraphRecord>, jobId: int)
    ensures forall i :: 0 <= i < |rs| ==> !ActiveFor(DeactivatedAll(rs, jobId)[i], jobId)
    ensures FirstMatch(DeactivatedAll(rs, jobId), jobId, None).None?
    ensures SingleActive(rs) ==> SingleActive(DeactivatedAll(rs, jobId))
  {
    var out := DeactivatedAll(rs, jobId);
    forall i | 0 <= i < |out| ensures !Matches(out[i], jobId, None) {
      assert !ActiveFor(out[i], jobId);
    }
  }

  // ---------------------------------------------------------------------
  // Version numbers after a soft delete
  // ---------------------------------------------------------------------

  /**
   * As written, a persist after `delete_semantic_graph` starts again at
   * version 1: persisting, deleting and persisting the same job leaves two
   * records with version 1, and reading version 1 gives the deleted graph.
   */
  lemma VersionRestartsAfterDelete(jobId: int, g1: seq<string>, g2: seq<string>)
    requires g1 != g2
    ensures var out := Persisted(DeactivatedAll(Persisted([], jobId, g1, []), jobId), jobId, g2, []);
      && |out| == 2
      && out[0].jobId == out[1].jobId == jobId
      && out[0].version == out[1].version == 1
      && FirstMatch(out, jobId, Some(1)) == Some(0)
      && out[0].nodes != g2
  {
    var one := Persisted([], jobId, g1, []);
    assert one == [GraphRecord(jobId, g1, [], |g1|, 0, 1, true)];
    var del := DeactivatedAll(one, jobId);
    assert del == [GraphRecord(jobId, g1, [], |g1|, 0, 1, false)];
    assert FirstActive(del, jobId) == None;
  }

  /** Versions of one job are pairwise different. */
  ghost predicate VersionsDistinct(rs: seq<GraphRecord>)
  {
    forall i, j :: 0 <= i < |rs| && 0 <= j < |rs| && i != j && rs[i].jobId == rs[j].jobId ==> rs[i].version != rs[j].version
  }

  /** The largest version the job has ever had, 0 when it has none. */
  function MaxVersion(rs: seq<GraphRecord>, jobId: int): (m: int)
    ensures forall i :: 0 <= i < |rs| && rs[i].jobId == jobId ==> rs[i].version <= m
  {
    if rs == [] then 0
    else
      var m := MaxVersion(rs[..|rs| - 1], jobId);
      var last := rs[|rs| - 1];
      if last.jobId == jobId && last.version > m then last.version else m
  }

  /** The intended persist: the new version is one past every version the job has had. */
  function IntendedPersisted(rs: seq<GraphRecord>, jobId: int, nodes: seq<string>, edges: seq<string>): seq<GraphRecord>
  {
    var deactivated := match FirstActive(rs, jobId)
      case None => rs
      case Some(i) => rs[i := rs[i].(isActive := false)];
    deactivated + [GraphRecord(jobId, nodes, edges, |nodes|, |edges|, MaxVersion(rs, jobId) + 1, true)]
  }

  /** The intended persist keeps versions unique per job, whatever deletes came before. */
  lemma IntendedVersionsDistinct(rs: seq<GraphRecord>, jobId: int, nodes: seq<string>, edges: seq<string>)
    requires VersionsDistinct(rs)
    ensures VersionsDistinct(IntendedPersisted(rs, jobId, nodes, edges))
    ensures VersionsDistinct(DeactivatedAll(rs, jobId))
  {
    var out := IntendedPersisted(rs, jobId, nodes, edges);
    var n := |rs|;
    assert |out| == n + 1;
    assert forall i :: 0 <= i < n ==> out[i].jobId == rs[i].jobId && out[i].version == rs[i].version;
    forall i, j | 0 <= i < |out| && 0 <= j < |out| && i != j && out[i].jobId == out[j].jobId
      ensures out[i].version != out[j].version
    {
      if i == n {
        assert out[j].version == rs[j].version <= MaxVersion(rs, jobId);
      } else if j == n {
        assert out[i].version == rs[i].version <= MaxVersion(rs, jobId);
      } else {
        assert rs[i].version != rs[j].version;
      }
    }
  }
}
