/**
 * The process-local cache of structural graphs, keyed by job id. The lock
 * around each access is not modelled: every operation is one atomic step.
 */
module GraphCache {
  import opened Common

  /** `dict.get(job_id)`: the cached value, `None` when there is none. */
  function Lookup<V>(m: map<int, V>, jobId: int): (r: Option<V>)
    ensures r.Some? <==> jobId in m
    ensures r.Some? ==> r.value == m[jobId]
  {
    if jobId in m then Some(m[jobId]) else None
  }

  /** A read after a write of the same job gives back the value written. */
  lemma SetThenGet<V>(m: map<int, V>, jobId: int, value: V)
    ensures Lookup(m[jobId := value], jobId) == Some(value)
  {
  }

  /** A write of one job leaves every other job's entry as it was. */
  lemma SetOtherUnaffected<V>(m: map<int, V>, jobId: int, value: V, other: int)
    requires other != jobId
    ensures Lookup(m[jobId := value], other) == Lookup(m, other)
  {
  }

  /** A read after a delete of the same job finds nothing. */
  lemma DeleteThenGet<V>(m: map<int, V>, jobId: int)
    ensures Lookup(m - {jobId}, jobId) == None
  {
  }

  /** Deleting a job that is not cached changes nothing. */
  lemma DeleteAbsent<V>(m: map<int, V>, jobId: int)
    requires jobId !in m
    ensures m - {jobId} == m
  {
  }

  class StructuralCache<V> {
    /** `_structural_cache` */
    var entries: map<int, V>

    constructor()
      ensures entries == map[]
    {
      entries := map[];
    }

    /** `set_structural_graph`: the entry of this job becomes `value`. */
    method Set(jobId: int, value: V)
      modifies this
      ensures entries == old(entries)[jobId := value]
      ensures Get(jobId) == Some(value)
      ensures forall j :: j != jobId ==> Get(j) == old(Get(j))
    {
      entries := entries[jobId := value];
    }

    /** `get_structural_graph` */
    function Get(jobId: int): (r: Option<V>)
      reads this
      ensures r.Some? <==> jobId in entries
      ensures r.Some? ==> r.value == entries[jobId]
    {
      Lookup(entries, jobId)
    }

    /** `delete_structural_graph`: `pop` with a default, so an absent job is no error. */
    method Delete(jobId: int)
      modifies this
      ensures entries == old(entries) - {jobId}
      ensures Get(jobId) == None
      ensures old(jobId !in entries) ==> entries == old(entries)
      ensures forall j :: j != jobId ==> Get(j) == old(Get(j))
    {
      entries := entries - {jobId};
    }
  }
}
