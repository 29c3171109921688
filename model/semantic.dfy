/**
 * Phase-3 semantic merging. The clustering of concept texts by embedding
 * similarity is an input (one cluster label per concept node); the rest is
 * modelled: the concept filter, the canonical label of each cluster, the
 * rewriting of edges onto canonical labels with support summing and
 * self-loop dropping, and the resulting graph.
 */
module SemanticMerge {
  import opened Common
  import opened Sorting
  import opened GraphTypes
  import opened EdgeTable

  function TextOf(n: SemNode): string
  {
    if n.NodeDict? then n.text else ""
  }

  function Texts(ns: seq<SemNode>): (r: seq<string>)
    ensures |r| == |ns|
    ensures forall i :: 0 <= i < |ns| ==> r[i] == TextOf(ns[i])
  {
    if ns == [] then [] else Texts(ns[..|ns| - 1]) + [TextOf(ns[|ns| - 1])]
  }

  // ---------------------------------------------------------------------
  // Concept nodes
  // ---------------------------------------------------------------------

  /**
   * A node `_filter_concept_nodes` keeps: a dict typed "concept" whose
   * stripped text has at least two characters, that is not all digits and
   * contains no "://".
   */
  predicate Mergeable(n: SemNode)
  {
    && n.NodeDict?
    && n.ntype.Is("concept")
    && n.text != ""
    && |Strip(n.text)| >= 2
    && !IsDigits(n.text)
    && !Contains(n.text, "://")
  }

  function ConceptNodes(ns: seq<SemNode>): (r: seq<SemNode>)
    ensures forall n :: n in r <==> n in ns && Mergeable(n)
    ensures |r| <= |ns|
  {
    if ns == [] then []
    else
      var pre := ns[..|ns| - 1];
      var n := ns[|ns| - 1];
      assert forall x :: x in ns <==> x in pre || x == n by {
        assert ns == pre + [n];
      }
      ConceptNodes(pre) + (if Mergeable(n) then [n] else [])
  }

  /** `node_to_idx`: each kept text with its position among the kept nodes; a later duplicate wins. */
  function ConceptIndex(ns: seq<SemNode>): map<string, nat>
  {
    if ns == [] then map[]
    else
      var pre := ns[..|ns| - 1];
      var n := ns[|ns| - 1];
      if Mergeable(n) then ConceptIndex(pre)[n.text := |ConceptNodes(pre)|] else ConceptIndex(pre)
  }

  lemma TextsSnoc(a: seq<SemNode>, n: SemNode)
    ensures Texts(a + [n]) == Texts(a) + [TextOf(n)]
  {
    assert (a + [n])[..|a|] == a;
  }

  lemma ConceptNodesStep(ns: seq<SemNode>)
    requires ns != []
    ensures ConceptNodes(ns) == ConceptNodes(ns[..|ns| - 1]) + (if Mergeable(ns[|ns| - 1]) then [ns[|ns| - 1]] else [])
  {
  }

  /** The index knows exactly the kept texts. */
  lemma {:induction false} ConceptIndexKeys(ns: seq<SemNode>, t: string)
    ensures t in ConceptIndex(ns) <==> t in Texts(ConceptNodes(ns))
  {
    if ns != [] {
      var pre := ns[..|ns| - 1];
      var n := ns[|ns| - 1];
      ConceptIndexKeys(pre, t);
      ConceptNodesStep(ns);
      var c0 := ConceptNodes(pre);
      if Mergeable(n) {
        TextsSnoc(c0, n);
        assert ConceptNodes(ns) == c0 + [n];
        assert ConceptIndex(ns) == ConceptIndex(pre)[n.text := |c0|];
        assert t in Texts(c0) + [n.text] <==> t in Texts(c0) || t == n.text;
      } else {
        assert ConceptNodes(ns) == c0;
      }
    }
  }

  /** The index maps a kept text to a kept node with that text. */
  lemma {:induction false} ConceptIndexSpec(ns: seq<SemNode>, t: string)
    requires t in ConceptIndex(ns)
    ensures ConceptIndex(ns)[t] < |ConceptNodes(ns)| && TextOf(ConceptNodes(ns)[ConceptIndex(ns)[t]]) == t
  {
    var pre := ns[..|ns| - 1];
    var n := ns[|ns| - 1];
    ConceptNodesStep(ns);
    var c0 := ConceptNodes(pre);
    if !(Mergeable(n) && n.text == t) {
      ConceptIndexSpec(pre, t);
      if Mergeable(n) {
        assert ConceptNodes(ns) == c0 + [n];
      }
    }
  }

  /** ... and to the last one: no later kept node has that text. */
  lemma {:induction false} ConceptIndexLast(ns: seq<SemNode>, t: string, j: nat)
    requires t in ConceptIndex(ns) && ConceptIndex(ns)[t] < j < |ConceptNodes(ns)|
    ensures TextOf(ConceptNodes(ns)[j]) != t
  {
    var pre := ns[..|ns| - 1];
    var n := ns[|ns| - 1];
    ConceptNodesStep(ns);
    var c0 := ConceptNodes(pre);
    var extra := if Mergeable(n) then [n] else [];
    if !(Mergeable(n) && n.text == t) {
      assert ConceptIndex(ns)[t] == ConceptIndex(pre)[t];
      if j < |c0| {
        ConceptIndexLast(pre, t, j);
        IndexConcatLeft(c0, extra, j);
      }
    }
  }

  /** Every kept text's position is a position of the kept list. */
  lemma IndexBounded(ns: seq<SemNode>)
    ensures forall t :: t in ConceptIndex(ns) ==> ConceptIndex(ns)[t] < |ConceptNodes(ns)|
  {
    forall t | t in ConceptIndex(ns) ensures ConceptIndex(ns)[t] < |ConceptNodes(ns)| {
      ConceptIndexSpec(ns, t);
    }
  }

  /** `_filter_concept_nodes`: the scan that fills the kept list and the index. */
  method FilterConceptNodes(ns: seq<SemNode>) returns (concepts: seq<SemNode>, index: map<string, nat>)
    ensures concepts == ConceptNodes(ns) && index == ConceptIndex(ns)
  {
    concepts := [];
    index := map[];
    for i := 0 to |ns|
      invariant concepts == ConceptNodes(ns[..i]) && index == ConceptIndex(ns[..i])
    {
      assert ns[..i + 1][..i] == ns[..i];
      ConceptNodesStep(ns[..i + 1]);
      var node := ns[i];
      if Mergeable(node) {
        index := index[node.text := |concepts|];
        concepts := concepts + [node];
      }
    }
    assert ns[..|ns|] == ns;
  }

  // ---------------------------------------------------------------------
  // Canonical labels
  // ---------------------------------------------------------------------

  /** How many edges have the text as subject or object. */
  function Degree(t: string, edges: seq<SemEdge>): (d: nat)
    ensures d <= |edges|
  {
    if edges == [] then 0
    else
      var e := edges[|edges| - 1];
      Degree(t, edges[..|edges| - 1]) + (if e.subject == Some(t) || e.obj == Some(t) then 1 else 0)
  }

  /**
   * The sort key `(len(t), -degree)` as one number, larger first: every
   * degree is at most `|edges|`, so a shorter text always outranks a longer
   * one and the degree only breaks ties.
   */
  function RankKey(t: string, edges: seq<SemEdge>): real
  {
    (Degree(t, edges) - |t| * (|edges| + 1)) as real
  }

  lemma ScaleAtMost(n: int, m: nat, la: nat, lb: nat)
    requires n == lb - la && n <= -1
    ensures la * (m + 1) - lb * (m + 1) >= m + 1
  {
    assert (n + 1) * (m + 1) <= 0;
    assert la * (m + 1) - lb * (m + 1) == -(n * (m + 1));
  }

  /** A text ranked at least as high is no longer, and when as long has no lower degree. */
  lemma RankOrder(a: string, b: string, edges: seq<SemEdge>)
    requires RankKey(a, edges) >= RankKey(b, edges)
    ensures |a| <= |b|
    ensures |a| == |b| ==> Degree(a, edges) >= Degree(b, edges)
  {
    if |a| > |b| {
      ScaleAtMost(|b| - |a|, |edges|, |a|, |b|);
    }
  }

  /** The elements of `s` other than `x`, in order. */
  function Without(s: seq<string>, x: string): (r: seq<string>)
    ensures forall y :: y in r <==> y in s && y != x
  {
    if s == [] then []
    else
      var pre := s[..|s| - 1];
      assert forall y :: y in s <==> y in pre || y == s[|s| - 1] by {
        assert s == pre + [s[|s| - 1]];
      }
      Without(pre, x) + (if s[|s| - 1] != x then [s[|s| - 1]] else [])
  }

  /** A cluster's canonical text and its aliases, in sorted order. */
  function Canonical(texts: seq<string>, edges: seq<SemEdge>): (string, seq<string>)
    requires texts != []
  {
    var sorted := SortDesc(texts, t => RankKey(t, edges));
    (sorted[0], Without(sorted, sorted[0]))
  }

  /**
   * The canonical text is a shortest text of the cluster, of highest degree
   * among those; it is not an alias, and it and the aliases are exactly the
   * cluster's texts.
   */
  lemma CanonicalSpec(texts: seq<string>, edges: seq<SemEdge>)
    requires texts != []
    ensures var (canon, aliases) := Canonical(texts, edges);
      && canon in texts
      && canon !in aliases
      && (forall t :: t in texts <==> t == canon || t in aliases)
      && (forall t :: t in texts ==> |canon| <= |t|)
      && (forall t :: t in texts && |t| == |canon| ==> Degree(canon, edges) >= Degree(t, edges))
  {
    var key := t => RankKey(t, edges);
    var sorted := SortDesc(texts, key);
    assert forall t :: t in texts <==> t in sorted by {
      forall t ensures t in texts <==> t in sorted {
        assert t in texts <==> t in multiset(texts);
        assert t in sorted <==> t in multiset(sorted);
      }
    }
    forall t | t in texts
      ensures |sorted[0]| <= |t| && (|t| == |sorted[0]| ==> Degree(sorted[0], edges) >= Degree(t, edges))
    {
      var k :| 0 <= k < |sorted| && sorted[k] == t;
      if k > 0 {
        assert key(sorted[0]) >= key(sorted[k]);
      }
      RankOrder(sorted[0], t, edges);
    }
  }

  /** The texts of the concepts in cluster `c`, in concept order. */
  function ClusterTexts(texts: seq<string>, labels: seq<int>, c: int): (r: seq<string>)
    requires |texts| == |labels|
    ensures forall t :: t in r ==> t in texts
    ensures c in labels ==> r != []
    ensures forall i :: 0 <= i < |labels| && labels[i] == c ==> texts[i] in r
  {
    if texts == [] then []
    else
      var n := |texts| - 1;
      var rest := ClusterTexts(texts[..n], labels[..n], c);
      assert forall i :: 0 <= i < n ==> labels[..n][i] == labels[i] && texts[..n][i] == texts[i];
      assert c in labels ==> c in labels[..n] || labels[n] == c by {
        assert labels == labels[..n] + [labels[n]];
      }
      rest + (if labels[n] == c then [texts[n]] else [])
  }

  /** `canonical_map` after the clusters `ids`: each with its canonical text and aliases. */
  function CanonicalMap(texts: seq<string>, labels: seq<int>, edges: seq<SemEdge>, ids: seq<int>): map<int, (string, seq<string>)>
    requires |texts| == |labels|
  {
    if ids == [] then map[]
    else
      var before := CanonicalMap(texts, labels, edges, ids[..|ids| - 1]);
      var members := ClusterTexts(texts, labels, ids[|ids| - 1]);
      if members == [] then before else before[ids[|ids| - 1] := Canonical(members, edges)]
  }

  /** Every cluster label gets the canonical entry of its own texts, and nothing else does. */
  lemma {:induction false} CanonicalMapSpec(texts: seq<string>, labels: seq<int>, edges: seq<SemEdge>, ids: seq<int>, c: int)
    requires |texts| == |labels|
    requires forall x :: x in ids ==> x in labels
    ensures c in CanonicalMap(texts, labels, edges, ids) <==> c in ids
    ensures c in ids ==> CanonicalMap(texts, labels, edges, ids)[c] == Canonical(ClusterTexts(texts, labels, c), edges)
  {
    if ids != [] {
      var pre := ids[..|ids| - 1];
      var last := ids[|ids| - 1];
      assert ids == pre + [last];
      assert last in labels;
      var m0 := CanonicalMap(texts, labels, edges, pre);
      assert CanonicalMap(texts, labels, edges, ids) == m0[last := Canonical(ClusterTexts(texts, labels, last), edges)];
      if c != last {
        assert c in ids <==> c in pre;
        CanonicalMapSpec(texts, labels, edges, pre, c);
      }
    }
  }

  lemma CanonicalMapStep(texts: seq<string>, labels: seq<int>, edges: seq<SemEdge>, ids: seq<int>, k: nat)
    requires |texts| == |labels| && k < |ids|
    ensures var members := ClusterTexts(texts, labels, ids[k]);
      var before := CanonicalMap(texts, labels, edges, ids[..k]);
      CanonicalMap(texts, labels, edges, ids[..k + 1])
        == if members == [] then before else before[ids[k] := Canonical(members, edges)]
  {
    assert ids[..k + 1][..k] == ids[..k];
  }

  /** `_select_canonical_labels`: one pass over the clusters in order of first appearance. */
  method SelectCanonicalLabels(concepts: seq<SemNode>, labels: seq<int>, edges: seq<SemEdge>)
    returns (canon: map<int, (string, seq<string>)>)
    requires |labels| == |concepts|
    ensures canon == CanonicalMap(Texts(concepts), labels, edges, Dedup(labels))
  {
    var texts := Texts(concepts);
    var ids := Dedup(labels);
    canon := map[];
    for k := 0 to |ids|
      invariant canon == CanonicalMap(texts, labels, edges, ids[..k])
    {
      CanonicalMapStep(texts, labels, edges, ids, k);
      var members := ClusterTexts(texts, labels, ids[k]);
      if members != [] {
        canon := canon[ids[k] := Canonical(members, edges)];
      }
    }
    assert ids[..|ids|] == ids;
  }

  // ---------------------------------------------------------------------
  // Edge rewriting
  // ---------------------------------------------------------------------

  type EdgeKey = (string, string, string)

  /** `text_to_canonical`: each kept text with the canonical text of its cluster. */
  function TextToCanonical(index: map<string, nat>, labels: seq<int>, canon: map<int, (string, seq<string>)>): map<string, string>
    requires forall t :: t in index ==> index[t] < |labels| && labels[index[t]] in canon
  {
    map t | t in index :: canon[labels[index[t]]].0
  }

  /** `text_to_canonical.get(t, t)`: texts outside the merged set stay as they are. */
  function Rename(m: map<string, string>, t: string): string
  {
    if t in m then m[t] else t
  }

  function RewriteKey(e: SemEdge, m: map<string, string>): EdgeKey
  {
    (Rename(m, OrEmpty(e.subject)), OrEmpty(e.pred), Rename(m, OrEmpty(e.obj)))
  }

  predicate SelfLoop(e: SemEdge, m: map<string, string>)
  {
    Rename(m, OrEmpty(e.subject)) == Rename(m, OrEmpty(e.obj))
  }

  /** The rewritten edges that are not self-loops, each carrying its support. */
  function Rewritten(edges: seq<SemEdge>, m: map<string, string>): (r: seq<Entry<EdgeKey>>)
    ensures forall x :: x in r ==> x.key.0 != x.key.2
  {
    if edges == [] then []
    else
      var e := edges[|edges| - 1];
      Rewritten(edges[..|edges| - 1], m)
        + (if SelfLoop(e, m) then [] else [Entry(RewriteKey(e, m), e.support, [], [], [])])
  }

  /** The support carried by the dropped self-loops. */
  function DroppedSupport(edges: seq<SemEdge>, m: map<string, string>): int
  {
    if edges == [] then 0
    else
      var e := edges[|edges| - 1];
      DroppedSupport(edges[..|edges| - 1], m) + (if SelfLoop(e, m) then e.support else 0)
  }

  function EdgeSupport(edges: seq<SemEdge>): int
  {
    if edges == [] then 0 else EdgeSupport(edges[..|edges| - 1]) + edges[|edges| - 1].support
  }

  /** The edge dict as the output edge list. */
  function EdgesOut(t: seq<Entry<EdgeKey>>): (r: seq<SemEdge>)
    ensures |r| == |t|
    ensures forall i :: 0 <= i < |t| ==>
      r[i] == SemEdge(Some(t[i].key.0), Some(t[i].key.1), Some(t[i].key.2), t[i].support, [], [], [])
  {
    if t == [] then []
    else
      var x := t[|t| - 1];
      EdgesOut(t[..|t| - 1]) + [SemEdge(Some(x.key.0), Some(x.key.1), Some(x.key.2), x.support, [], [], [])]
  }

  /** `_rewrite_edges`: the loop that fills `edge_dict`. */
  method RewriteEdges(edges: seq<SemEdge>, m: map<string, string>) returns (rewritten: seq<SemEdge>)
    ensures rewritten == EdgesOut(AddAll([], Rewritten(edges, m)))
  {
    var table: seq<Entry<EdgeKey>> := [];
    for i := 0 to |edges|
      invariant table == AddAll([], Rewritten(edges[..i], m))
    {
      assert edges[..i + 1][..i] == edges[..i];
      var edge := edges[i];
      var newSubject := Rename(m, OrEmpty(edge.subject));
      var newObject := Rename(m, OrEmpty(edge.obj));
      if newSubject != newObject {
        var entry := Entry((newSubject, OrEmpty(edge.pred), newObject), edge.support, [], [], []);
        assert Rewritten(edges[..i + 1], m) == Rewritten(edges[..i], m) + [entry];
        table := Add(table, entry);
      } else {
        assert Rewritten(edges[..i + 1], m) == Rewritten(edges[..i], m);
      }
    }
    assert edges[..|edges|] == edges;
    rewritten := EdgesOut(table);
  }

  lemma {:induction false} RewrittenTotal(edges: seq<SemEdge>, m: map<string, string>)
    ensures Total(Rewritten(edges, m)) + DroppedSupport(edges, m) == EdgeSupport(edges)
  {
    if edges != [] {
      var pre := edges[..|edges| - 1];
      RewrittenTotal(pre, m);
      var e := edges[|edges| - 1];
      assert EdgeSupport(edges) == EdgeSupport(pre) + e.support;
      if !SelfLoop(e, m) {
        var r := Rewritten(pre, m);
        var x := Entry(RewriteKey(e, m), e.support, [], [], []);
        assert Rewritten(edges, m) == r + [x];
        assert (r + [x])[..|r|] == r;
        assert Total(r + [x]) == Total(r) + x.support;
        assert DroppedSupport(edges, m) == DroppedSupport(pre, m);
      } else {
        assert Rewritten(edges, m) == Rewritten(pre, m);
        assert DroppedSupport(edges, m) == DroppedSupport(pre, m) + e.support;
      }
    }
  }

  /** A key is rewritten from some edge iff some input edge that is not a self-loop maps to it. */
  lemma {:induction false} RewrittenKeys(edges: seq<SemEdge>, m: map<string, string>, k: EdgeKey)
    ensures Find(Rewritten(edges, m), k).Some? <==>
      exists i :: 0 <= i < |edges| && !SelfLoop(edges[i], m) && RewriteKey(edges[i], m) == k
  {
    if edges != [] {
      var pre := edges[..|edges| - 1];
      RewrittenKeys(pre, m, k);
      var e := edges[|edges| - 1];
      assert forall i :: 0 <= i < |pre| ==> pre[i] == edges[i];
      assert (exists i :: 0 <= i < |edges| && !SelfLoop(edges[i], m) && RewriteKey(edges[i], m) == k) <==>
        (exists i :: 0 <= i < |pre| && !SelfLoop(pre[i], m) && RewriteKey(pre[i], m) == k)
        || (!SelfLoop(e, m) && RewriteKey(e, m) == k);
      if !SelfLoop(e, m) {
        var r := Rewritten(pre, m);
        var x := Entry(RewriteKey(e, m), e.support, [], [], []);
        assert Rewritten(edges, m) == r + [x];
        FindLast(r + [x], k);
        assert (r + [x])[..|r|] == r;
      } else {
        assert Rewritten(edges, m) == Rewritten(pre, m);
      }
    }
  }

  /**
   * The rewritten edges: one per key with no self-loop, whose support sums
   * the supports of the input edges rewritten to that key; a key appears iff
   * some input edge that does not collapse is rewritten to it (so subjects
   * and objects are renamed and predicates kept); and the total support is
   * the input's less the dropped self-loops'.
   */
  lemma RewriteSpec(edges: seq<SemEdge>, m: map<string, string>, k: EdgeKey)
    ensures var t := AddAll([], Rewritten(edges, m));
      && Keyed(t)
      && (forall x :: x in t ==> x.key.0 != x.key.2)
      && (Find(t, k).Some? <==> exists i :: 0 <= i < |edges| && !SelfLoop(edges[i], m) && RewriteKey(edges[i], m) == k)
      && SupportOf(t, k) == SupportSum(Rewritten(edges, m), k)
      && Total(t) == EdgeSupport(edges) - DroppedSupport(edges, m)
  {
    var es := Rewritten(edges, m);
    AddAllKeyed([], es);
    AddAllKeys([], es, k);
    AddAllSupport([], es, k);
    AddAllTotal([], es);
    RewrittenTotal(edges, m);
    RewrittenKeys(edges, m, k);
    AddAllKeysFrom([], es);
  }

  /** Every key the table holds comes from an added entry. */
  lemma {:induction false} AddAllKeysFrom<K>(t: seq<Entry<K>>, es: seq<Entry<K>>)
    ensures forall x :: x in AddAll(t, es) ==> x.key in KeySet(t) || x.key in KeySet(es)
  {
    if es != [] {
      var pre := es[..|es| - 1];
      AddAllKeysFrom(t, pre);
      assert KeySet(es) == KeySet(pre) + {es[|es| - 1].key} by {
        assert es == pre + [es[|es| - 1]];
      }
    }
  }

  function KeySet<K>(t: seq<Entry<K>>): set<K>
  {
    set x | x in t :: x.key
  }

  // ---------------------------------------------------------------------
  // The merge
  // ---------------------------------------------------------------------

  datatype MergeSummary =
    | NothingMerged(edgesRewritten: nat)
    | MergeCounts(conceptNodes: nat, clusters: nat, nodesMerged: int, edgesBefore: nat, edgesAfter: nat)

  datatype Merged = Merged(graph: SemanticGraph, summary: MergeSummary)

  /** A canonical node per cluster, in order of the clusters' first appearance. */
  function CanonicalNodes(ids: seq<int>, canon: map<int, (string, seq<string>)>): (r: seq<SemNode>)
    requires forall i :: 0 <= i < |ids| ==> ids[i] in canon
    ensures |r| == |ids|
    ensures forall i :: 0 <= i < |ids| ==> r[i] == NodeDict(canon[ids[i]].0, Str("concept"), canon[ids[i]].1)
  {
    if ids == [] then []
    else
      var c := ids[|ids| - 1];
      CanonicalNodes(ids[..|ids| - 1], canon) + [NodeDict(canon[c].0, Str("concept"), canon[c].1)]
  }

  /** The dict nodes not typed "concept", passed through as they are. */
  function OtherNodes(ns: seq<SemNode>): (r: seq<SemNode>)
    ensures forall n :: n in r <==> n in ns && n.NodeDict? && !n.ntype.Is("concept")
  {
    if ns == [] then []
    else
      var pre := ns[..|ns| - 1];
      var n := ns[|ns| - 1];
      assert forall x :: x in ns <==> x in pre || x == n by {
        assert ns == pre + [n];
      }
      OtherNodes(pre) + (if n.NodeDict? && !n.ntype.Is("concept") then [n] else [])
  }

  /** The canonical map of a graph's concept nodes under `labels`. */
  function ClusterMap(g: SemanticGraph, labels: seq<int>): map<int, (string, seq<string>)>
    requires |labels| == |ConceptNodes(g.nodes)|
  {
    CanonicalMap(Texts(ConceptNodes(g.nodes)), labels, g.edges, Dedup(labels))
  }

  /** Every kept text and every cluster finds its entry, so the rewriting never misses a key. */
  lemma MergeReady(g: SemanticGraph, labels: seq<int>)
    requires |labels| == |ConceptNodes(g.nodes)|
    ensures forall c :: c in labels ==> c in ClusterMap(g, labels)
    ensures forall i :: 0 <= i < |Dedup(labels)| ==> Dedup(labels)[i] in ClusterMap(g, labels)
    ensures forall t :: t in ConceptIndex(g.nodes) ==>
      ConceptIndex(g.nodes)[t] < |labels| && labels[ConceptIndex(g.nodes)[t]] in ClusterMap(g, labels)
  {
    var texts := Texts(ConceptNodes(g.nodes));
    var ids := Dedup(labels);
    forall c | c in labels ensures c in ClusterMap(g, labels) {
      CanonicalMapSpec(texts, labels, g.edges, ids, c);
    }
    IndexBounded(g.nodes);
  }

  /** The merged graph from the canonical map and the rewritten edges. */
  function Assemble(g: SemanticGraph, labels: seq<int>, canon: map<int, (string, seq<string>)>,
                    edges: seq<SemEdge>): Merged
    requires forall i :: 0 <= i < |Dedup(labels)| ==> Dedup(labels)[i] in canon
  {
    var concepts := ConceptNodes(g.nodes);
    var nodes := CanonicalNodes(Dedup(labels), canon) + OtherNodes(g.nodes);
    Merged(SemanticGraph(nodes, edges),
           MergeCounts(|concepts|, |canon|, |concepts| - |canon|, |g.edges|, |edges|))
  }

  /**
   * `merge_semantically` with the clustering given as `labels`, one label
   * per concept node. Without concept nodes the graph has no nodes and the
   * edges pass through.
   */
  function Merge(g: SemanticGraph, labels: seq<int>): Merged
    requires |labels| == |ConceptNodes(g.nodes)|
  {
    if ConceptNodes(g.nodes) == [] then Merged(SemanticGraph([], g.edges), NothingMerged(0))
    else
      MergeReady(g, labels);
      var canon := ClusterMap(g, labels);
      var m := TextToCanonical(ConceptIndex(g.nodes), labels, canon);
      Assemble(g, labels, canon, EdgesOut(AddAll([], Rewritten(g.edges, m))))
  }

  /** `merge_semantically`: the filter, label and rewrite passes, then assembly. */
  method MergeSemantically(g: SemanticGraph, labels: seq<int>) returns (r: Merged)
    requires |labels| == |ConceptNodes(g.nodes)|
    ensures r == Merge(g, labels)
  {
    var concepts, index := FilterConceptNodes(g.nodes);
    if concepts == [] {
      return Merged(SemanticGraph([], g.edges), NothingMerged(0));
    }
    var canon := SelectCanonicalLabels(concepts, labels, g.edges);
    MergeReady(g, labels);
    var m := TextToCanonical(index, labels, canon);
    var edges := RewriteEdges(g.edges, m);
    r := Assemble(g, labels, canon, edges);
  }

  /**
   * With concept nodes, the merged graph holds one canonical node per
   * cluster, followed by the non-concept nodes, and no edge is a self-loop.
   */
  lemma MergeShape(g: SemanticGraph, labels: seq<int>)
    requires |labels| == |ConceptNodes(g.nodes)|
    requires ConceptNodes(g.nodes) != []
    ensures var r := Merge(g, labels);
      && |r.graph.nodes| == |Dedup(labels)| + |OtherNodes(g.nodes)|
      && forall e :: e in r.graph.edges ==> e.subject != e.obj
  {
    MergeReady(g, labels);
    var m := TextToCanonical(ConceptIndex(g.nodes), labels, ClusterMap(g, labels));
    var t := AddAll([], Rewritten(g.edges, m));
    AddAllKeysFrom([], Rewritten(g.edges, m));
    assert Merge(g, labels).graph.edges == EdgesOut(t);
    forall e | e in EdgesOut(t) ensures e.subject != e.obj {
      var i :| 0 <= i < |EdgesOut(t)| && EdgesOut(t)[i] == e;
      assert t[i] in t;
    }
  }

  /**
   * Each concept's cluster is named by a shortest text of that cluster, and
   * the concept's text is that name or one of its aliases.
   */
  lemma MergeNames(g: SemanticGraph, labels: seq<int>, i: nat)
    requires |labels| == |ConceptNodes(g.nodes)|
    requires i < |labels|
    ensures labels[i] in ClusterMap(g, labels)
    ensures var (canon, aliases) := ClusterMap(g, labels)[labels[i]];
      var texts := Texts(ConceptNodes(g.nodes));
      && canon in ClusterTexts(texts, labels, labels[i])
      && |canon| <= |texts[i]|
      && (texts[i] == canon || texts[i] in aliases)
  {
    var texts := Texts(ConceptNodes(g.nodes));
    MergeReady(g, labels);
    CanonicalMapSpec(texts, labels, g.edges, Dedup(labels), labels[i]);
    CanonicalSpec(ClusterTexts(texts, labels, labels[i]), g.edges);
  }
}
