/**
 * The insertion-ordered `edge_dict` both semantic merges accumulate: one
 * entry per edge key, whose support is the sum of the supports added under
 * that key and whose id lists collect every id added under it.
 */
module EdgeTable {
  import opened Common

  datatype IdKind = TripleIds | SourceIds | BlockIds

  datatype Entry<K> = Entry(key: K, support: int, tripleIds: seq<int>, sourceIds: seq<int>, blockIds: seq<int>)
  {
    /** The ids of one kind, as a set. */
    function IdSet(kind: IdKind): set<int>
    {
      set x | x in Ids(kind)
    }

    function Ids(kind: IdKind): seq<int>
    {
      match kind
      case TripleIds => tripleIds
      case SourceIds => sourceIds
      case BlockIds => blockIds
    }
  }

  /** No two entries share a key, as in a dict. */
  predicate Keyed<K(==)>(t: seq<Entry<K>>)
  {
    forall i, j :: 0 <= i < j < |t| ==> t[i].key != t[j].key
  }

  function Find<K(==)>(t: seq<Entry<K>>, k: K): (r: Option<nat>)
    ensures r.None? <==> forall i :: 0 <= i < |t| ==> t[i].key != k
    ensures r.Some? ==> r.value < |t| && t[r.value].key == k
  {
    if t == [] then None
    else if t[0].key == k then Some(0)
    else
      var rest := Find(t[1..], k);
      if rest.None? then None else Some(rest.value + 1)
  }

  lemma FindKeyed<K>(t: seq<Entry<K>>, i: nat)
    requires Keyed(t) && i < |t|
    ensures Find(t, t[i].key) == Some(i)
  {
  }

  /** `_add_edge_to_dict`: add to the entry with the same key, or append one. */
  function Add<K(==)>(t: seq<Entry<K>>, e: Entry<K>): (r: seq<Entry<K>>)
    ensures Keyed(t) ==> Keyed(r)
  {
    match Find(t, e.key)
    case None => t + [e]
    case Some(i) =>
      t[i := Entry(e.key, t[i].support + e.support, t[i].tripleIds + e.tripleIds,
                   t[i].sourceIds + e.sourceIds, t[i].blockIds + e.blockIds)]
  }

  function AddAll<K(==)>(t: seq<Entry<K>>, es: seq<Entry<K>>): seq<Entry<K>>
  {
    if es == [] then t else Add(AddAll(t, es[..|es| - 1]), es[|es| - 1])
  }

  /** The support the table holds for `k`: 0 when no entry has that key. */
  function SupportOf<K(==)>(t: seq<Entry<K>>, k: K): int
  {
    match Find(t, k)
    case None => 0
    case Some(i) => t[i].support
  }

  /** The ids of one kind the table holds for `k`. */
  function IdsOf<K(==)>(t: seq<Entry<K>>, k: K, kind: IdKind): set<int>
  {
    match Find(t, k)
    case None => {}
    case Some(i) => t[i].IdSet(kind)
  }

  /** The total support of the entries with key `k`. */
  function SupportSum<K(==)>(es: seq<Entry<K>>, k: K): int
  {
    if es == [] then 0
    else SupportSum(es[..|es| - 1], k) + (if es[|es| - 1].key == k then es[|es| - 1].support else 0)
  }

  /** Every id of one kind that the entries with key `k` carry. */
  function IdUnion<K(==)>(es: seq<Entry<K>>, k: K, kind: IdKind): set<int>
  {
    if es == [] then {}
    else IdUnion(es[..|es| - 1], k, kind) + (if es[|es| - 1].key == k then es[|es| - 1].IdSet(kind) else {})
  }

  /** The total support of all entries. */
  function Total<K>(es: seq<Entry<K>>): int
  {
    if es == [] then 0 else Total(es[..|es| - 1]) + es[|es| - 1].support
  }

  lemma AddSpec<K>(t: seq<Entry<K>>, e: Entry<K>, k: K)
    requires Keyed(t)
    ensures Find(Add(t, e), k).Some? <==> Find(t, k).Some? || e.key == k
    ensures SupportOf(Add(t, e), k) == SupportOf(t, k) + (if e.key == k then e.support else 0)
    ensures forall kind :: IdsOf(Add(t, e), k, kind) == IdsOf(t, k, kind) + (if e.key == k then e.IdSet(kind) else {})
  {
    var r := Add(t, e);
    match Find(t, e.key)
    case None =>
      if e.key == k {
        FindKeyed(r, |t|);
      } else if Find(t, k).Some? {
        FindKeyed(r, Find(t, k).value);
      }
    case Some(i) =>
      if Find(t, k).Some? {
        FindKeyed(r, Find(t, k).value);
      }
  }

  lemma FindLast<K>(es: seq<Entry<K>>, k: K)
    requires es != []
    ensures Find(es, k).Some? <==> Find(es[..|es| - 1], k).Some? || es[|es| - 1].key == k
  {
    var pre := es[..|es| - 1];
    assert forall i :: 0 <= i < |pre| ==> pre[i] == es[i];
  }

  /** After adding a list of entries, a key is present iff it was or one of them has it. */
  lemma {:induction false} AddAllKeys<K>(t: seq<Entry<K>>, es: seq<Entry<K>>, k: K)
    requires Keyed(t)
    ensures Find(AddAll(t, es), k).Some? <==> Find(t, k).Some? || Find(es, k).Some?
  {
    if es != [] {
      var pre := es[..|es| - 1];
      var before := AddAll(t, pre);
      AddAllKeyed(t, pre);
      AddAllKeys(t, pre, k);
      AddSpec(before, es[|es| - 1], k);
      FindLast(es, k);
      assert AddAll(t, es) == Add(before, es[|es| - 1]);
    }
  }

  /** After adding a list of entries, a key's support is the old one plus theirs. */
  lemma {:induction false} AddAllSupport<K>(t: seq<Entry<K>>, es: seq<Entry<K>>, k: K)
    requires Keyed(t)
    ensures SupportOf(AddAll(t, es), k) == SupportOf(t, k) + SupportSum(es, k)
  {
    if es != [] {
      var pre := es[..|es| - 1];
      AddAllKeyed(t, pre);
      AddAllSupport(t, pre, k);
      AddSpec(AddAll(t, pre), es[|es| - 1], k);
    }
  }

  /** After adding a list of entries, a key's ids are the old ones together with theirs. */
  lemma {:induction false} AddAllIds<K>(t: seq<Entry<K>>, es: seq<Entry<K>>, k: K, kind: IdKind)
    requires Keyed(t)
    ensures IdsOf(AddAll(t, es), k, kind) == IdsOf(t, k, kind) + IdUnion(es, k, kind)
  {
    if es != [] {
      var pre := es[..|es| - 1];
      AddAllKeyed(t, pre);
      AddAllIds(t, pre, k, kind);
      AddSpec(AddAll(t, pre), es[|es| - 1], k);
    }
  }

  lemma {:induction false} AddAllKeyed<K>(t: seq<Entry<K>>, es: seq<Entry<K>>)
    requires Keyed(t)
    ensures Keyed(AddAll(t, es))
  {
    if es != [] {
      AddAllKeyed(t, es[..|es| - 1]);
    }
  }

  lemma {:induction false} AddTotal<K>(t: seq<Entry<K>>, e: Entry<K>)
    ensures Total(Add(t, e)) == Total(t) + e.support
  {
    match Find(t, e.key)
    case None =>
      assert (t + [e])[..|t|] == t;
    case Some(i) =>
      UpdateTotal(t, i, t[i].support + e.support);
  }

  lemma {:induction false} UpdateTotal<K>(t: seq<Entry<K>>, i: nat, s: int)
    requires i < |t|
    ensures forall e: Entry<K> :: e.key == t[i].key && e.support == s ==>
      Total(t[i := e]) == Total(t) - t[i].support + s
  {
    forall e: Entry<K> | e.key == t[i].key && e.support == s
      ensures Total(t[i := e]) == Total(t) - t[i].support + s
    {
      var n := |t| - 1;
      if i < n {
        UpdateTotal(t[..n], i, s);
        assert t[i := e][..n] == t[..n][i := e];
      } else {
        assert t[i := e][..n] == t[..n];
      }
    }
  }

  /** Merging never loses or invents support. */
  lemma {:induction false} AddAllTotal<K>(t: seq<Entry<K>>, es: seq<Entry<K>>)
    ensures Total(AddAll(t, es)) == Total(t) + Total(es)
  {
    if es != [] {
      AddAllTotal(t, es[..|es| - 1]);
      AddTotal(AddAll(t, es[..|es| - 1]), es[|es| - 1]);
    }
  }
}
