/**
 * The part of a networkx `DiGraph` that path reasoning and hypothesis
 * filtering rely on: nodes in insertion order with their "type" attribute,
 * edges in insertion order with one attribute record per (u, v) pair,
 * successors and predecessors in edge-insertion order, and the degree
 * (in-degree plus out-degree, so a self-loop counts twice).
 */
module DiGraphs {
  import opened Common
  import opened GraphTypes

  /** The per-pair lists `_graph_to_nx` keeps on an edge. */
  datatype EdgeData = EdgeData(
    predicates: seq<string>,
    supports: seq<int>,
    tripleIdsList: seq<seq<int>>,
    sourceIdsList: seq<seq<int>>,
    blockIdsList: seq<seq<int>>)

  const NoData: EdgeData := EdgeData([], [], [], [], [])

  datatype DiGraph = DiGraph(
    nodes: seq<string>,
    ntype: map<string, Attr>,
    edges: seq<(string, string)>,
    data: map<(string, string), EdgeData>)

  const Empty: DiGraph := DiGraph([], map[], [], map[])

  /** Nodes and edges are unique, every edge joins two nodes, and the attribute maps cover exactly them. */
  ghost predicate Valid(g: DiGraph)
  {
    && Distinct(g.nodes)
    && Distinct(g.edges)
    && (forall i :: 0 <= i < |g.edges| ==> g.edges[i].0 in g.nodes && g.edges[i].1 in g.nodes)
    && (forall e :: e in g.data <==> e in g.edges)
    && (forall n :: n in g.ntype <==> n in g.nodes)
  }

  predicate HasNode(g: DiGraph, n: string) { n in g.nodes }

  predicate HasEdge(g: DiGraph, u: string, v: string) { (u, v) in g.data }

  /** The "type" attribute of a node, `Missing` for a node without one. */
  function NodeType(g: DiGraph, n: string): Attr
  {
    if n in g.ntype then g.ntype[n] else Missing
  }

  /** Heads of the edges in `es` leaving `u`, in order. */
  function SuccIn(es: seq<(string, string)>, u: string): (r: seq<string>)
    ensures |r| <= |es|
  {
    if es == [] then []
    else SuccIn(es[..|es| - 1], u) + (if es[|es| - 1].0 == u then [es[|es| - 1].1] else [])
  }

  /** Tails of the edges in `es` entering `v`, in order. */
  function PredIn(es: seq<(string, string)>, v: string): (r: seq<string>)
    ensures |r| <= |es|
  {
    if es == [] then []
    else PredIn(es[..|es| - 1], v) + (if es[|es| - 1].1 == v then [es[|es| - 1].0] else [])
  }

  function Successors(g: DiGraph, u: string): seq<string> { SuccIn(g.edges, u) }

  function Predecessors(g: DiGraph, v: string): seq<string> { PredIn(g.edges, v) }

  /** `G.degree(n)`: edges leaving plus edges entering `n`. */
  function Degree(g: DiGraph, n: string): nat { |Successors(g, n)| + |Predecessors(g, n)| }

  lemma {:induction false} SuccInMember(es: seq<(string, string)>, u: string, v: string)
    ensures v in SuccIn(es, u) <==> (u, v) in es
  {
    if es != [] {
      SuccInMember(es[..|es| - 1], u, v);
      assert es == es[..|es| - 1] + [es[|es| - 1]];
    }
  }

  lemma {:induction false} PredInMember(es: seq<(string, string)>, u: string, v: string)
    ensures u in PredIn(es, v) <==> (u, v) in es
  {
    if es != [] {
      PredInMember(es[..|es| - 1], u, v);
      assert es == es[..|es| - 1] + [es[|es| - 1]];
    }
  }

  /** Successors are exactly the heads of edges leaving `u`. */
  lemma SuccessorsIff(g: DiGraph, u: string, v: string)
    requires Valid(g)
    ensures v in Successors(g, u) <==> HasEdge(g, u, v)
  {
    SuccInMember(g.edges, u, v);
  }

  /** Predecessors are exactly the tails of edges entering `v`. */
  lemma PredecessorsIff(g: DiGraph, u: string, v: string)
    requires Valid(g)
    ensures u in Predecessors(g, v) <==> HasEdge(g, u, v)
  {
    PredInMember(g.edges, u, v);
  }

  /** `G.add_node(n, type=t)`: a new node is appended; an existing one keeps its place and gets `t` only if given. */
  function AddNode(g: DiGraph, n: string, t: Attr): (r: DiGraph)
    requires Valid(g)
    ensures Valid(r)
    ensures r.edges == g.edges && r.data == g.data
    ensures HasNode(g, n) ==> r.nodes == g.nodes
    ensures !HasNode(g, n) ==> r.nodes == g.nodes + [n]
    ensures NodeType(r, n) == (if t.Missing? && HasNode(g, n) then NodeType(g, n) else t)
    ensures forall m :: m != n ==> NodeType(r, m) == NodeType(g, m)
  {
    if n in g.nodes then
      if t.Missing? then g else g.(ntype := g.ntype[n := t])
    else
      g.(nodes := g.nodes + [n], ntype := g.ntype[n := t])
  }

  /**
   * `G.add_edge(u, v, **d)` on a pair that may be new: missing endpoints
   * are added without attributes; an existing edge keeps its data (the
   * callers never pass attributes for an existing edge).
   */
  function AddEdge(g: DiGraph, u: string, v: string, d: EdgeData): (r: DiGraph)
    requires Valid(g)
    ensures Valid(r)
    ensures forall x, y :: HasEdge(r, x, y) <==> HasEdge(g, x, y) || (x == u && y == v)
    ensures HasEdge(g, u, v) ==> r.edges == g.edges && r.data == g.data
    ensures !HasEdge(g, u, v) ==> r.edges == g.edges + [(u, v)] && r.data == g.data[(u, v) := d]
    ensures forall m :: HasNode(r, m) <==> HasNode(g, m) || m == u || m == v
    ensures forall m :: HasNode(g, m) ==> NodeType(r, m) == NodeType(g, m)
  {
    var g1 := if u in g.nodes then g else AddNode(g, u, Missing);
    var g2 := if v in g1.nodes then g1 else AddNode(g1, v, Missing);
    if (u, v) in g2.data then g2
    else
      AppendEdgeValid(g2, u, v, d);
      g2.(edges := g2.edges + [(u, v)], data := g2.data[(u, v) := d])
  }

  /** Appending a new edge between two existing nodes keeps the graph valid. */
  lemma AppendEdgeValid(g: DiGraph, u: string, v: string, d: EdgeData)
    requires Valid(g) && HasNode(g, u) && HasNode(g, v) && !HasEdge(g, u, v)
    ensures Valid(g.(edges := g.edges + [(u, v)], data := g.data[(u, v) := d]))
  {
    var es := g.edges + [(u, v)];
    assert (u, v) !in g.edges;
    forall i, j | 0 <= i < j < |es| ensures es[i] != es[j] {
      if j == |g.edges| { assert es[i] in g.edges; }
    }
  }

  /** Replace the attribute record of an existing edge. */
  function SetEdgeData(g: DiGraph, u: string, v: string, d: EdgeData): (r: DiGraph)
    requires Valid(g) && HasEdge(g, u, v)
    ensures Valid(r)
    ensures r.nodes == g.nodes && r.edges == g.edges && r.ntype == g.ntype
    ensures r.data == g.data[(u, v) := d]
  {
    g.(data := g.data[(u, v) := d])
  }

  // ---------------------------------------------------------------------
  // The node loop shared by both semantic-graph converters
  // ---------------------------------------------------------------------

  /** One entry of the "nodes" loop: dict nodes with a truthy text become graph nodes. */
  function AddNodeEntry(g: DiGraph, n: SemNode): (r: DiGraph)
    requires Valid(g)
    ensures Valid(r) && r.edges == g.edges && r.data == g.data
  {
    match n
    case NotDict => g
    case NodeDict(text, t, _) => if text == "" then g else AddNode(g, text, t)
  }

  /** The graph after the "nodes" loop has run over `ns`. */
  function NodesGraph(ns: seq<SemNode>): (g: DiGraph)
    ensures Valid(g) && g.edges == [] && g.data == map[]
  {
    if ns == [] then Empty else AddNodeEntry(NodesGraph(ns[..|ns| - 1]), ns[|ns| - 1])
  }

  /** A node entry names `n`: a dict node whose text is `n` and truthy. */
  predicate NodeEntryNames(e: SemNode, n: string)
  {
    e.NodeDict? && e.text != "" && e.text == n
  }

  /** The node loop adds exactly the truthy texts of dict entries, in first-seen order. */
  lemma {:induction false} NodesGraphNodes(ns: seq<SemNode>, n: string)
    ensures HasNode(NodesGraph(ns), n) <==> exists i :: 0 <= i < |ns| && NodeEntryNames(ns[i], n)
  {
    if ns != [] {
      var pre := ns[..|ns| - 1];
      NodesGraphNodes(pre, n);
      if exists i :: 0 <= i < |pre| && NodeEntryNames(pre[i], n) {
        var i :| 0 <= i < |pre| && NodeEntryNames(pre[i], n);
        assert NodeEntryNames(ns[i], n);
      }
      if exists i :: 0 <= i < |ns| && NodeEntryNames(ns[i], n) {
        var i :| 0 <= i < |ns| && NodeEntryNames(ns[i], n);
        if i < |pre| { assert NodeEntryNames(pre[i], n); }
      }
    }
  }

  /** `for node in semantic_graph.get("nodes", [])`: the node loop, adding to one graph in place. */
  method AddNodeEntries(ns: seq<SemNode>) returns (g: DiGraph)
    ensures g == NodesGraph(ns)
    ensures Valid(g)
  {
    g := Empty;
    var i := 0;
    while i < |ns|
      invariant 0 <= i <= |ns|
      invariant g == NodesGraph(ns[..i])
    {
      assert ns[..i + 1][..i] == ns[..i];
      var n := ns[i];
      if n.NodeDict? && n.text != "" {
        g := AddNode(g, n.text, n.ntype);
      }
      i := i + 1;
    }
    assert ns[..i] == ns;
  }
}
