/**
 * The incremental variant of phase-3 merging: the concept nodes of a new
 * sanitized graph are folded into an existing semantic graph instead of
 * re-clustering everything. The embedding similarity search is an input:
 * `nearest` maps a new concept text to its most similar existing canonical
 * text when that similarity reaches the threshold (an empty map stands for
 * a failed embedding of the canonical texts); `embedded` says whether
 * embedding the new texts succeeded; `labels` is the clustering the full
 * merge would use.
 */
module IncrementalMerge {
  import opened Common
  import opened Sorting
  import opened GraphTypes
  import opened EdgeTable
  import opened SemanticMerge

  /** An edge dict key: subject, predicate and object as read with `.get`. */
  type FullKey = (Option<string>, Option<string>, Option<string>)

  /** A node `incremental_merge_semantically` treats as canonical or as a concept. */
  predicate IsConcept(n: SemNode)
  {
    n.NodeDict? && n.ntype.Is("concept")
  }

  // ---------------------------------------------------------------------
  // The canonical map
  // ---------------------------------------------------------------------

  /**
   * `canonical_map`: every canonical node is a concept node whose text is
   * its key, so an entry is its alias list; `order` is the dict's
   * insertion order.
   */
  datatype CanonMap = CanonMap(order: seq<string>, aliases: map<string, seq<string>>)
  {
    ghost predicate Valid()
    {
      Distinct(order) && forall t :: t in aliases <==> t in order
    }

    /** `canonical_map[t] = node`: a new key goes last, an old key keeps its place. */
    function Put(t: string, al: seq<string>): (r: CanonMap)
      ensures Valid() ==> r.Valid()
      ensures r.aliases.Keys == aliases.Keys + {t}
      ensures r.aliases == aliases[t := al]
      ensures order <= r.order
    {
      DistinctSnoc(order, t);
      CanonMap(if t in aliases then order else order + [t], aliases[t := al])
    }

    /** `list(canonical_map.values())`. */
    function Nodes(): (r: seq<SemNode>)
      requires Valid()
      ensures |r| == |order|
      ensures forall i :: 0 <= i < |order| ==> r[i] == NodeDict(order[i], Str("concept"), aliases[order[i]])
    {
      seq(|order|, i requires 0 <= i < |order| => NodeDict(order[i], Str("concept"), aliases[order[i]]))
    }
  }

  /** The texts of the existing concept nodes, `set(canonical_texts)`. */
  function CanonicalTexts(ns: seq<SemNode>): set<string>
  {
    set n | n in ns && IsConcept(n) :: n.text
  }

  /** The first loop: each concept node of the existing graph under its text; a later duplicate wins. */
  function ExistingMap(ns: seq<SemNode>): (r: CanonMap)
    ensures r.Valid()
  {
    if ns == [] then CanonMap([], map[])
    else
      var cm := ExistingMap(ns[..|ns| - 1]);
      var n := ns[|ns| - 1];
      if IsConcept(n) then cm.Put(n.text, n.aliases) else cm
  }

  /**
   * The canonical map holds exactly the existing concept texts, each with
   * the aliases of a concept node of that text.
   */
  lemma {:induction false} ExistingMapSpec(ns: seq<SemNode>)
    ensures ExistingMap(ns).aliases.Keys == CanonicalTexts(ns)
    ensures forall t :: t in ExistingMap(ns).aliases ==>
      exists n :: n in ns && IsConcept(n) && n.text == t && n.aliases == ExistingMap(ns).aliases[t]
  {
    if ns != [] {
      var pre := ns[..|ns| - 1];
      var n := ns[|ns| - 1];
      assert ns == pre + [n];
      ExistingMapSpec(pre);
      assert CanonicalTexts(ns) == CanonicalTexts(pre) + (if IsConcept(n) then {n.text} else {}) by {
        assert forall x :: x in ns <==> x in pre || x == n;
      }
      forall t | t in ExistingMap(ns).aliases
        ensures exists x :: x in ns && IsConcept(x) && x.text == t && x.aliases == ExistingMap(ns).aliases[t]
      {
        if IsConcept(n) && t == n.text {
          assert n in ns;
        } else {
          var x :| x in pre && IsConcept(x) && x.text == t && x.aliases == ExistingMap(pre).aliases[t];
          assert x in ns;
        }
      }
    }
  }

  // ---------------------------------------------------------------------
  // New nodes
  // ---------------------------------------------------------------------

  /** `new_nodes`: the sanitized concept nodes whose text is not canonical yet, in order. */
  function NewNodes(ns: seq<SemNode>, canon: set<string>): (r: seq<SemNode>)
    ensures forall n :: n in r <==> n in ns && IsConcept(n) && n.text !in canon
    ensures |r| <= |ns|
  {
    if ns == [] then []
    else
      var pre := ns[..|ns| - 1];
      var n := ns[|ns| - 1];
      assert forall x :: x in ns <==> x in pre || x == n by {
        assert ns == pre + [n];
      }
      NewNodes(pre, canon) + (if IsConcept(n) && n.text !in canon then [n] else [])
  }

  /** The texts of the new nodes all lie outside the canonical texts. */
  lemma NewTextsFresh(ns: seq<SemNode>, canon: set<string>)
    ensures forall t :: t in Texts(NewNodes(ns, canon)) ==> t !in canon
  {
    var r := NewNodes(ns, canon);
    forall t | t in Texts(r) ensures t !in canon {
      var i :| 0 <= i < |r| && Texts(r)[i] == t;
      assert r[i] in r;
    }
  }

  // ---------------------------------------------------------------------
  // Mapping new texts
  // ---------------------------------------------------------------------

  /**
   * The canonical text a new text joins: its nearest canonical text when
   * that one passes the threshold and is non-empty. The search runs over
   * the canonical texts only, never over nodes created during the loop.
   */
  function Target(nearest: map<string, string>, canon: set<string>, t: string): (r: Option<string>)
    ensures r.Some? ==> r.value in canon && r.value != ""
  {
    if t in nearest && nearest[t] in canon && nearest[t] != "" then Some(nearest[t]) else None
  }

  datatype MapState = MapState(mapping: map<string, string>, canon: CanonMap)

  /**
   * One turn of the mapping loop: a matched text maps to its target and is
   * appended to the target's aliases unless already there; any other text
   * maps to itself and gets a fresh canonical node with no aliases.
   */
  function MapText(nearest: map<string, string>, canon: set<string>, s: MapState, t: string): (r: MapState)
    requires canon <= s.canon.aliases.Keys
    ensures s.canon.Valid() ==> r.canon.Valid()
    ensures s.canon.aliases.Keys <= r.canon.aliases.Keys
    ensures s.canon.order <= r.canon.order
  {
    match Target(nearest, canon, t)
    case Some(c) =>
      var al := s.canon.aliases[c];
      MapState(s.mapping[t := c], if t in al then s.canon else s.canon.Put(c, al + [t]))
    case None =>
      MapState(s.mapping[t := t], s.canon.Put(t, []))
  }

  function MapAll(nearest: map<string, string>, canon: set<string>, s: MapState, ts: seq<string>): (r: MapState)
    requires canon <= s.canon.aliases.Keys
    ensures s.canon.Valid() ==> r.canon.Valid()
    ensures s.canon.aliases.Keys <= r.canon.aliases.Keys
  {
    if ts == [] then s
    else MapText(nearest, canon, MapAll(nearest, canon, s, ts[..|ts| - 1]), ts[|ts| - 1])
  }

  /** The alias list of canonical text `c` after the texts `ts` have been mapped. */
  function AliasesAfter(nearest: map<string, string>, canon: set<string>, orig: seq<string>, c: string,
                        ts: seq<string>): seq<string>
  {
    if ts == [] then orig
    else
      var a := AliasesAfter(nearest, canon, orig, c, ts[..|ts| - 1]);
      var t := ts[|ts| - 1];
      if Target(nearest, canon, t) == Some(c) && t !in a then a + [t] else a
  }

  /**
   * Aliases only grow: the old ones stay in front, every matched text ends
   * up among them, each added alias is a text matched to `c`, and a
   * duplicate-free list stays duplicate-free (a text is added at most once).
   */
  lemma {:induction false} AliasesAfterSpec(nearest: map<string, string>, canon: set<string>, orig: seq<string>,
                                            c: string, ts: seq<string>)
    ensures orig <= AliasesAfter(nearest, canon, orig, c, ts)
    ensures forall t :: t in ts && Target(nearest, canon, t) == Some(c) ==> t in AliasesAfter(nearest, canon, orig, c, ts)
    ensures forall t :: t in AliasesAfter(nearest, canon, orig, c, ts) ==>
      t in orig || (t in ts && Target(nearest, canon, t) == Some(c))
    ensures Distinct(orig) ==> Distinct(AliasesAfter(nearest, canon, orig, c, ts))
  {
    if ts != [] {
      var pre := ts[..|ts| - 1];
      var t := ts[|ts| - 1];
      assert ts == pre + [t];
      AliasesAfterSpec(nearest, canon, orig, c, pre);
      DistinctSnoc(AliasesAfter(nearest, canon, orig, c, pre), t);
    }
  }

  /** What one turn of the mapping loop changes. */
  lemma MapTextStep(nearest: map<string, string>, canon: set<string>, s: MapState, t: string)
    requires canon <= s.canon.aliases.Keys
    ensures var r := MapText(nearest, canon, s, t);
      match Target(nearest, canon, t)
      case Some(c) =>
        && r.mapping == s.mapping[t := c]
        && r.canon.aliases == (if t in s.canon.aliases[c] then s.canon.aliases
                               else s.canon.aliases[c := s.canon.aliases[c] + [t]])
      case None =>
        r.mapping == s.mapping[t := t] && r.canon.aliases == s.canon.aliases[t := []]
  {
  }

  /** After mapping `ts`, each of them maps to its target, or to itself when it has none. */
  lemma {:induction false} MapAllMapping(nearest: map<string, string>, canon: set<string>, s: MapState,
                                         ts: seq<string>, t: string)
    requires canon <= s.canon.aliases.Keys
    requires t in ts
    ensures var r := MapAll(nearest, canon, s, ts);
      && t in r.mapping
      && r.mapping[t] == (if Target(nearest, canon, t).Some? then Target(nearest, canon, t).value else t)
  {
    var pre := ts[..|ts| - 1];
    var last := ts[|ts| - 1];
    var m := MapAll(nearest, canon, s, pre);
    assert MapAll(nearest, canon, s, ts) == MapText(nearest, canon, m, last);
    MapTextStep(nearest, canon, m, last);
    if t != last {
      var i :| 0 <= i < |ts| && ts[i] == t;
      assert pre[i] == t;
      MapAllMapping(nearest, canon, s, pre, t);
      assert MapAll(nearest, canon, s, ts).mapping[t] == m.mapping[t];
    }
  }

  /** The canonical map's keys after mapping `ts`: the old keys and the unmatched texts. */
  lemma {:induction false} MapAllKeys(nearest: map<string, string>, canon: set<string>, s: MapState,
                                      ts: seq<string>, t: string)
    requires canon <= s.canon.aliases.Keys
    ensures t in MapAll(nearest, canon, s, ts).canon.aliases <==>
      t in s.canon.aliases || (t in ts && Target(nearest, canon, t).None?)
    ensures s.canon.order <= MapAll(nearest, canon, s, ts).canon.order
  {
    if ts != [] {
      var pre := ts[..|ts| - 1];
      var last := ts[|ts| - 1];
      var m := MapAll(nearest, canon, s, pre);
      assert MapAll(nearest, canon, s, ts) == MapText(nearest, canon, m, last);
      MapTextStep(nearest, canon, m, last);
      assert ts == pre + [last];
      assert t in ts <==> t in pre || t == last;
      MapAllKeys(nearest, canon, s, pre, t);
    }
  }

  /** A canonical text's aliases after mapping texts that are not canonical. */
  lemma {:induction false} MapAllAliases(nearest: map<string, string>, canon: set<string>, s: MapState,
                                         ts: seq<string>, c: string)
    requires canon <= s.canon.aliases.Keys
    requires forall t :: t in ts ==> t !in canon
    requires c in canon
    ensures MapAll(nearest, canon, s, ts).canon.aliases[c] == AliasesAfter(nearest, canon, s.canon.aliases[c], c, ts)
  {
    if ts != [] {
      var pre := ts[..|ts| - 1];
      var last := ts[|ts| - 1];
      var m := MapAll(nearest, canon, s, pre);
      assert MapAll(nearest, canon, s, ts) == MapText(nearest, canon, m, last);
      MapTextStep(nearest, canon, m, last);
      assert ts[|ts| - 1] in ts;
      assert forall x :: x in pre ==> x in ts;
      MapAllAliases(nearest, canon, s, pre, c);
      var a := AliasesAfter(nearest, canon, s.canon.aliases[c], c, pre);
      assert AliasesAfter(nearest, canon, s.canon.aliases[c], c, ts)
        == if Target(nearest, canon, last) == Some(c) && last !in a then a + [last] else a;
      assert last != c;
    }
  }

  /** An unmatched text ends with a node of its own that has no aliases. */
  lemma {:induction false} MapAllFresh(nearest: map<string, string>, canon: set<string>, s: MapState,
                                       ts: seq<string>, t: string)
    requires canon <= s.canon.aliases.Keys
    requires forall x :: x in ts ==> x !in canon
    requires t in ts && Target(nearest, canon, t).None?
    ensures var r := MapAll(nearest, canon, s, ts);
      t in r.canon.aliases && r.canon.aliases[t] == []
  {
    var pre := ts[..|ts| - 1];
    var last := ts[|ts| - 1];
    var m := MapAll(nearest, canon, s, pre);
    assert MapAll(nearest, canon, s, ts) == MapText(nearest, canon, m, last);
    MapTextStep(nearest, canon, m, last);
    assert last !in canon by {
      assert ts[|ts| - 1] in ts;
    }
    if t != last {
      var i :| 0 <= i < |ts| && ts[i] == t;
      assert pre[i] == t;
      assert forall x :: x in pre ==> x in ts;
      MapAllFresh(nearest, canon, s, pre, t);
    }
  }

  // ---------------------------------------------------------------------
  // Edges
  // ---------------------------------------------------------------------

  /** An existing edge as an entry of `edge_dict`. */
  function ExistingEntry(e: SemEdge): Entry<FullKey>
  {
    Entry((e.subject, e.pred, e.obj), e.support, e.tripleIds, e.sourceIds, e.blockIds)
  }

  function ExistingEntries(es: seq<SemEdge>): (r: seq<Entry<FullKey>>)
    ensures |r| == |es|
    ensures forall i :: 0 <= i < |es| ==> r[i] == ExistingEntry(es[i])
  {
    if es == [] then [] else ExistingEntries(es[..|es| - 1]) + [ExistingEntry(es[|es| - 1])]
  }

  /** `mapping.get(x, x)` on an endpoint that may be `None`. */
  function MapEnd(mapping: map<string, string>, x: Option<string>): Option<string>
  {
    if x.Some? && x.value in mapping then Some(mapping[x.value]) else x
  }

  /** The sanitized edges rewritten through `mapping`, self-loops dropped. */
  function MappedEntries(es: seq<SemEdge>, mapping: map<string, string>): (r: seq<Entry<FullKey>>)
    ensures forall x :: x in r ==> x.key.0 != x.key.2
    ensures |r| <= |es|
  {
    if es == [] then []
    else
      var e := es[|es| - 1];
      var s := MapEnd(mapping, e.subject);
      var o := MapEnd(mapping, e.obj);
      MappedEntries(es[..|es| - 1], mapping)
        + (if s == o then [] else [Entry((s, e.pred, o), e.support, e.tripleIds, e.sourceIds, e.blockIds)])
  }

  /** A sanitized edge survives the rewriting iff its mapped endpoints differ. */
  lemma {:induction false} MappedEntriesKeys(es: seq<SemEdge>, mapping: map<string, string>, k: FullKey)
    ensures Find(MappedEntries(es, mapping), k).Some? <==>
      exists i :: 0 <= i < |es| && k == (MapEnd(mapping, es[i].subject), es[i].pred, MapEnd(mapping, es[i].obj))
        && k.0 != k.2
  {
    if es != [] {
      var pre := es[..|es| - 1];
      var e := es[|es| - 1];
      MappedEntriesKeys(pre, mapping, k);
      var s := MapEnd(mapping, e.subject);
      var o := MapEnd(mapping, e.obj);
      if s == o {
        assert MappedEntries(es, mapping) == MappedEntries(pre, mapping);
      } else {
        FindLast(MappedEntries(es, mapping), k);
        assert MappedEntries(es, mapping)[..|MappedEntries(es, mapping)| - 1] == MappedEntries(pre, mapping);
      }
      assert forall i :: 0 <= i < |pre| ==> pre[i] == es[i];
    }
  }

  /** A merged edge: sorted id lists (`sorted(list(ids))`). */
  function OutEdge(x: Entry<FullKey>): SemEdge
  {
    SemEdge(x.key.0, x.key.1, x.key.2, x.support,
            SortedSet(x.tripleIds), SortedSet(x.sourceIds), SortedSet(x.blockIds))
  }

  function OutEdges(t: seq<Entry<FullKey>>): (r: seq<SemEdge>)
    ensures |r| == |t|
    ensures forall i :: 0 <= i < |t| ==> r[i] == OutEdge(t[i])
  {
    if t == [] then [] else OutEdges(t[..|t| - 1]) + [OutEdge(t[|t| - 1])]
  }

  /** `edge_dict` after both loops. */
  function EdgeDict(existing: seq<SemEdge>, sanitized: seq<SemEdge>, mapping: map<string, string>): seq<Entry<FullKey>>
  {
    AddAll(AddAll([], ExistingEntries(existing)), MappedEntries(sanitized, mapping))
  }

  /**
   * Edges merge by key: a key's support is the sum over the existing edges
   * and the surviving mapped edges with that key, and its ids of each kind
   * are the union of theirs.
   */
  lemma EdgeDictSpec(existing: seq<SemEdge>, sanitized: seq<SemEdge>, mapping: map<string, string>, k: FullKey)
    ensures Keyed(EdgeDict(existing, sanitized, mapping))
    ensures SupportOf(EdgeDict(existing, sanitized, mapping), k)
      == SupportSum(ExistingEntries(existing), k) + SupportSum(MappedEntries(sanitized, mapping), k)
    ensures forall kind ::
      IdsOf(EdgeDict(existing, sanitized, mapping), k, kind)
        == IdUnion(ExistingEntries(existing), k, kind) + IdUnion(MappedEntries(sanitized, mapping), k, kind)
  {
    var e := ExistingEntries(existing);
    var n := MappedEntries(sanitized, mapping);
    AddAllKeyed([], e);
    AddAllKeyed(AddAll([], e), n);
    AddAllSupport([], e, k);
    AddAllSupport(AddAll([], e), n, k);
    forall kind ensures IdsOf(EdgeDict(existing, sanitized, mapping), k, kind) == IdUnion(e, k, kind) + IdUnion(n, k, kind) {
      AddAllIds([], e, k, kind);
      AddAllIds(AddAll([], e), n, k, kind);
    }
  }

  /**
   * Every output edge has strictly increasing id lists holding exactly the
   * ids its key collected.
   */
  lemma OutEdgesSorted(t: seq<Entry<FullKey>>, i: nat)
    requires i < |t|
    ensures var e := OutEdges(t)[i];
      && StrictlyIncreasing(e.tripleIds) && StrictlyIncreasing(e.sourceIds) && StrictlyIncreasing(e.blockIds)
      && (forall x :: x in e.tripleIds <==> x in t[i].IdSet(TripleIds))
      && (forall x :: x in e.sourceIds <==> x in t[i].IdSet(SourceIds))
      && (forall x :: x in e.blockIds <==> x in t[i].IdSet(BlockIds))
  {
  }

  // ---------------------------------------------------------------------
  // The merge
  // ---------------------------------------------------------------------

  datatype IncrementalResult =
    | FullMerge(merged: Merged)
    | Unchanged(graph: SemanticGraph)
    | Incremental(graph: SemanticGraph, addedConcepts: nat, edgesAfter: nat)

  /** The state after the mapping loop, for an existing graph `g` and the sanitized nodes. */
  function MappedState(g: SemanticGraph, sanitized: SemanticGraph, nearest: map<string, string>): MapState
  {
    var cm := ExistingMap(g.nodes);
    ExistingMapSpec(g.nodes);
    var canon := CanonicalTexts(g.nodes);
    MapAll(nearest, canon, MapState(map[], cm), Texts(NewNodes(sanitized.nodes, canon)))
  }

  /** The graph the incremental path returns. */
  function Updated(g: SemanticGraph, sanitized: SemanticGraph, nearest: map<string, string>): IncrementalResult
  {
    var s := MappedState(g, sanitized, nearest);
    var edges := OutEdges(EdgeDict(g.edges, sanitized.edges, s.mapping));
    Incremental(SemanticGraph(s.canon.Nodes(), edges),
                |NewNodes(sanitized.nodes, CanonicalTexts(g.nodes))|, |edges|)
  }

  /** `incremental_merge_semantically`. */
  function Merge(existing: Option<SemanticGraph>, sanitized: SemanticGraph, labels: seq<int>,
                 nearest: map<string, string>, embedded: bool): IncrementalResult
    requires |labels| == |ConceptNodes(sanitized.nodes)|
  {
    if existing.None? then FullMerge(SemanticMerge.Merge(sanitized, labels))
    else if NewNodes(sanitized.nodes, CanonicalTexts(existing.value.nodes)) == [] then Unchanged(existing.value)
    else if !embedded then FullMerge(SemanticMerge.Merge(sanitized, labels))
    else Updated(existing.value, sanitized, nearest)
  }

  /** The loop that fills `canonical_map` from the existing nodes. */
  method CollectCanonical(ns: seq<SemNode>) returns (cm: CanonMap)
    ensures cm == ExistingMap(ns)
  {
    cm := CanonMap([], map[]);
    for i := 0 to |ns|
      invariant cm == ExistingMap(ns[..i])
    {
      assert ns[..i + 1][..i] == ns[..i];
      var node := ns[i];
      if IsConcept(node) {
        cm := cm.Put(node.text, node.aliases);
      }
    }
    assert ns[..|ns|] == ns;
  }

  /** The loop that maps each new text and updates `canonical_map`. */
  method MapNewTexts(nearest: map<string, string>, canon: set<string>, s0: MapState, ts: seq<string>)
    returns (s: MapState)
    requires canon <= s0.canon.aliases.Keys
    ensures s == MapAll(nearest, canon, s0, ts)
  {
    s := s0;
    for i := 0 to |ts|
      invariant s == MapAll(nearest, canon, s0, ts[..i])
    {
      assert ts[..i + 1][..i] == ts[..i];
      s := MapText(nearest, canon, s, ts[i]);
    }
    assert ts[..|ts|] == ts;
  }

  /** The loop over the existing edges, each passed to `_add_edge_to_dict`. */
  method AddExistingEdges(es: seq<SemEdge>) returns (table: seq<Entry<FullKey>>)
    ensures table == AddAll([], ExistingEntries(es))
  {
    table := [];
    for i := 0 to |es|
      invariant table == AddAll([], ExistingEntries(es[..i]))
    {
      assert es[..i + 1][..i] == es[..i];
      table := Add(table, ExistingEntry(es[i]));
    }
    assert es[..|es|] == es;
  }

  /** The loop over the sanitized edges: endpoints mapped, self-loops skipped. */
  method AddMappedEdges(table0: seq<Entry<FullKey>>, es: seq<SemEdge>, mapping: map<string, string>)
    returns (table: seq<Entry<FullKey>>)
    ensures table == AddAll(table0, MappedEntries(es, mapping))
  {
    table := table0;
    for i := 0 to |es|
      invariant table == AddAll(table0, MappedEntries(es[..i], mapping))
    {
      var edge := es[i];
      assert es[..i + 1][..i] == es[..i];
      var subj := MapEnd(mapping, edge.subject);
      var obj := MapEnd(mapping, edge.obj);
      var pre := MappedEntries(es[..i], mapping);
      if subj != obj {
        var x := Entry((subj, edge.pred, obj), edge.support, edge.tripleIds, edge.sourceIds, edge.blockIds);
        assert MappedEntries(es[..i + 1], mapping) == pre + [x];
        assert (pre + [x])[..|pre|] == pre;
        table := Add(table, x);
      } else {
        assert MappedEntries(es[..i + 1], mapping) == pre;
      }
    }
    assert es[..|es|] == es;
  }

  /** `incremental_merge_semantically`. */
  method IncrementalMergeSemantically(existing: Option<SemanticGraph>, sanitized: SemanticGraph, labels: seq<int>,
                                      nearest: map<string, string>, embedded: bool)
    returns (r: IncrementalResult)
    requires |labels| == |ConceptNodes(sanitized.nodes)|
    ensures r == Merge(existing, sanitized, labels, nearest, embedded)
  {
    if existing.None? {
      var merged := MergeSemantically(sanitized, labels);
      return FullMerge(merged);
    }
    var g := existing.value;
    var cm := CollectCanonical(g.nodes);
    ExistingMapSpec(g.nodes);
    var canon := cm.aliases.Keys;
    var newNodes := NewNodes(sanitized.nodes, canon);
    if newNodes == [] {
      return Unchanged(g);
    }
    if !embedded {
      var merged := MergeSemantically(sanitized, labels);
      return FullMerge(merged);
    }
    var s := MapNewTexts(nearest, canon, MapState(map[], cm), Texts(newNodes));
    var table := AddExistingEdges(g.edges);
    table := AddMappedEdges(table, sanitized.edges, s.mapping);
    var edges := OutEdges(table);
    r := Incremental(SemanticGraph(s.canon.Nodes(), edges), |newNodes|, |edges|);
  }

  // ---------------------------------------------------------------------
  // Properties
  // ---------------------------------------------------------------------

  /**
   * With no existing graph the result is the full merge; with no new
   * concept text it is the existing graph itself; otherwise, once the new
   * texts are embedded, the incremental graph counts exactly the new nodes.
   */
  lemma MergePaths(existing: Option<SemanticGraph>, sanitized: SemanticGraph, labels: seq<int>,
                   nearest: map<string, string>, embedded: bool)
    requires |labels| == |ConceptNodes(sanitized.nodes)|
    ensures var r := Merge(existing, sanitized, labels, nearest, embedded);
      && (existing.None? ==> r == FullMerge(SemanticMerge.Merge(sanitized, labels)))
      && (r.Unchanged? <==>
            existing.Some? && forall n :: n in sanitized.nodes && IsConcept(n) ==> n.text in CanonicalTexts(existing.value.nodes))
      && (r.Unchanged? ==> r.graph == existing.value)
      && (r.Incremental? ==> embedded && r.addedConcepts >= 1 && r.edgesAfter == |r.graph.edges|)
  {
    if existing.Some? {
      var nn := NewNodes(sanitized.nodes, CanonicalTexts(existing.value.nodes));
      if nn != [] {
        assert nn[0] in nn;
      }
    }
  }

  /** The nodes of a canonical map are concept nodes with pairwise different texts. */
  lemma CanonNodes(cm: CanonMap)
    requires cm.Valid()
    ensures forall n :: n in cm.Nodes() ==> IsConcept(n)
    ensures forall i, j :: 0 <= i < j < |cm.Nodes()| ==> cm.Nodes()[i].text != cm.Nodes()[j].text
  {
    var nodes := cm.Nodes();
    forall n | n in nodes ensures IsConcept(n) {
      var i :| 0 <= i < |nodes| && nodes[i] == n;
    }
  }

  /**
   * Every node of an incremental result is a concept node and no two share
   * a text: non-concept nodes of the existing graph are not carried over.
   * The existing canonical texts keep their places at the front.
   */
  lemma UpdatedNodes(g: SemanticGraph, sanitized: SemanticGraph, nearest: map<string, string>)
    ensures var r := Updated(g, sanitized, nearest);
      && (forall n :: n in r.graph.nodes ==> IsConcept(n))
      && (forall i, j :: 0 <= i < j < |r.graph.nodes| ==> r.graph.nodes[i].text != r.graph.nodes[j].text)
      && ExistingMap(g.nodes).order <= MappedState(g, sanitized, nearest).canon.order
  {
    var canon := CanonicalTexts(g.nodes);
    ExistingMapSpec(g.nodes);
    var s0 := MapState(map[], ExistingMap(g.nodes));
    var ts := Texts(NewNodes(sanitized.nodes, canon));
    var s := MapAll(nearest, canon, s0, ts);
    assert MappedState(g, sanitized, nearest) == s;
    assert Updated(g, sanitized, nearest).graph.nodes == s.canon.Nodes();
    CanonNodes(s.canon);
    MapAllKeys(nearest, canon, s0, ts, "");
  }

  /**
   * Each new text maps to its matched canonical text, where it is now an
   * alias, or else to itself, where a fresh node without aliases stands;
   * a text is canonical afterwards iff it was before or is an unmatched
   * new text.
   */
  lemma UpdatedMapping(g: SemanticGraph, sanitized: SemanticGraph, nearest: map<string, string>, t: string)
    requires t in Texts(NewNodes(sanitized.nodes, CanonicalTexts(g.nodes)))
    ensures var canon := CanonicalTexts(g.nodes);
      var s := MappedState(g, sanitized, nearest);
      && t !in canon
      && t in s.mapping
      && match Target(nearest, canon, t)
         case Some(c) => s.mapping[t] == c && c in s.canon.aliases && t in s.canon.aliases[c]
         case None => s.mapping[t] == t && t in s.canon.aliases && s.canon.aliases[t] == []
  {
    var canon := CanonicalTexts(g.nodes);
    var ts := Texts(NewNodes(sanitized.nodes, canon));
    var s0 := MapState(map[], ExistingMap(g.nodes));
    ExistingMapSpec(g.nodes);
    NewTextsFresh(sanitized.nodes, canon);
    MapAllMapping(nearest, canon, s0, ts, t);
    var tg := Target(nearest, canon, t);
    if tg.Some? {
      MapAllAliases(nearest, canon, s0, ts, tg.value);
      AliasesAfterSpec(nearest, canon, s0.canon.aliases[tg.value], tg.value, ts);
    } else {
      MapAllFresh(nearest, canon, s0, ts, t);
    }
  }

  /** The canonical texts after the merge: the old ones and the unmatched new texts. */
  lemma UpdatedKeys(g: SemanticGraph, sanitized: SemanticGraph, nearest: map<string, string>, t: string)
    ensures var canon := CanonicalTexts(g.nodes);
      t in MappedState(g, sanitized, nearest).canon.aliases <==>
        t in canon || (t in Texts(NewNodes(sanitized.nodes, canon)) && Target(nearest, canon, t).None?)
  {
    var canon := CanonicalTexts(g.nodes);
    ExistingMapSpec(g.nodes);
    MapAllKeys(nearest, canon, MapState(map[], ExistingMap(g.nodes)), Texts(NewNodes(sanitized.nodes, canon)), t);
  }

  /**
   * An existing canonical node keeps its aliases in front and gains only
   * new texts matched to it, each at most once.
   */
  lemma UpdatedAliases(g: SemanticGraph, sanitized: SemanticGraph, nearest: map<string, string>, c: string)
    requires c in ExistingMap(g.nodes).aliases
    ensures var canon := CanonicalTexts(g.nodes);
      var before := ExistingMap(g.nodes).aliases[c];
      var after := MappedState(g, sanitized, nearest).canon.aliases[c];
      && before <= after
      && (forall t :: t in after ==>
            t in before || (t in Texts(NewNodes(sanitized.nodes, canon)) && Target(nearest, canon, t) == Some(c)))
      && (Distinct(before) ==> Distinct(after))
  {
    var canon := CanonicalTexts(g.nodes);
    var ts := Texts(NewNodes(sanitized.nodes, canon));
    var s0 := MapState(map[], ExistingMap(g.nodes));
    ExistingMapSpec(g.nodes);
    NewTextsFresh(sanitized.nodes, canon);
    MapAllAliases(nearest, canon, s0, ts, c);
    AliasesAfterSpec(nearest, canon, s0.canon.aliases[c], c, ts);
  }

  /**
   * The merged edges: one per key, supports summed over the existing edges
   * and the mapped sanitized edges, ids unioned and sorted, and no mapped
   * sanitized edge is a self-loop.
   */
  lemma UpdatedEdges(g: SemanticGraph, sanitized: SemanticGraph, nearest: map<string, string>, k: FullKey)
    ensures var mapping := MappedState(g, sanitized, nearest).mapping;
      var t := EdgeDict(g.edges, sanitized.edges, mapping);
      && Updated(g, sanitized, nearest).graph.edges == OutEdges(t)
      && Keyed(t)
      && SupportOf(t, k) == SupportSum(ExistingEntries(g.edges), k) + SupportSum(MappedEntries(sanitized.edges, mapping), k)
      && (forall x :: x in MappedEntries(sanitized.edges, mapping) ==> x.key.0 != x.key.2)
  {
    var mapping := MappedState(g, sanitized, nearest).mapping;
    EdgeDictSpec(g.edges, sanitized.edges, mapping, k);
  }
}
