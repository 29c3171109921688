/**
 * Phase 4, path reasoning (backend/app/path_reasoning/reasoning.py): the
 * semantic graph is turned into a directed graph, strict A -> B -> C
 * "discovery" chains are enumerated, each chain becomes a hypothesis whose
 * confidence is its weakest hop, and hypotheses are deduplicated and
 * optionally boosted for preferred predicates. Verification mode's
 * connectivity test is modelled too.
 */
module PathReasoning {
  import opened Common
  import opened GraphTypes
  import opened DiGraphs
  import opened Sorting
  import opened Hypotheses

  // =====================================================================
  // _graph_to_nx
  // =====================================================================

  /** An edge is used only when subject, object and predicate are all present. */
  predicate Usable(e: SemEdge)
  {
    e.subject.Some? && e.obj.Some? && e.pred.Some?
  }

  /** The edge dict `e` contributes to pair (u, v). */
  predicate Feeds(e: SemEdge, u: string, v: string)
  {
    Usable(e) && e.subject.value == u && e.obj.value == v
  }

  /** `data.setdefault(key, []).append(...)` for every list kept on the edge. */
  function Extend(d: EdgeData, e: SemEdge): EdgeData
    requires Usable(e)
  {
    EdgeData(d.predicates + [e.pred.value], d.supports + [e.support],
             d.tripleIdsList + [e.tripleIds], d.sourceIdsList + [e.sourceIds],
             d.blockIdsList + [e.blockIds])
  }

  /** One entry of the "edges" loop. */
  function AddEdgeEntry(g: DiGraph, e: SemEdge): (r: DiGraph)
    requires Valid(g)
    ensures Valid(r)
  {
    if !Usable(e) then g
    else
      var (u, v) := (e.subject.value, e.obj.value);
      if HasEdge(g, u, v) then SetEdgeData(g, u, v, Extend(g.data[(u, v)], e))
      else AddEdge(g, u, v, Extend(NoData, e))
  }

  /** The graph after the "edges" loop has run over `es`, starting from `g`. */
  function EdgesGraph(g: DiGraph, es: seq<SemEdge>): (r: DiGraph)
    requires Valid(g)
    ensures Valid(r)
  {
    if es == [] then g else AddEdgeEntry(EdgesGraph(g, es[..|es| - 1]), es[|es| - 1])
  }

  /** The directed graph `_graph_to_nx` builds from a semantic graph. */
  function GraphOf(sg: SemanticGraph): (g: DiGraph)
    ensures Valid(g)
  {
    EdgesGraph(NodesGraph(sg.nodes), sg.edges)
  }

  /** The predicates of the usable edges from `u` to `v`, in input order. */
  function PredicatesFor(es: seq<SemEdge>, u: string, v: string): seq<string>
  {
    if es == [] then []
    else
      var e := es[|es| - 1];
      PredicatesFor(es[..|es| - 1], u, v) + (if Feeds(e, u, v) then [e.pred.value] else [])
  }

  /** The supports of the usable edges from `u` to `v`, in input order. */
  function SupportsFor(es: seq<SemEdge>, u: string, v: string): seq<int>
  {
    if es == [] then []
    else
      var e := es[|es| - 1];
      SupportsFor(es[..|es| - 1], u, v) + (if Feeds(e, u, v) then [e.support] else [])
  }

  /** One step of the edge loop, seen from a single pair (u, v). */
  lemma AddEdgeEntryPair(g: DiGraph, e: SemEdge, u: string, v: string)
    requires Valid(g)
    ensures HasEdge(AddEdgeEntry(g, e), u, v) <==> HasEdge(g, u, v) || Feeds(e, u, v)
    ensures HasEdge(AddEdgeEntry(g, e), u, v) ==>
              AddEdgeEntry(g, e).data[(u, v)] ==
                if !Feeds(e, u, v) then g.data[(u, v)]
                else if HasEdge(g, u, v) then Extend(g.data[(u, v)], e)
                else Extend(NoData, e)
  {
  }

  /**
   * `_graph_to_nx` keeps one edge per (subject, object) pair, present iff
   * some usable edge dict names the pair; its predicate and support lists
   * are those of the usable edge dicts for that pair, in input order.
   * Edges missing a subject, object or predicate leave no trace.
   */
  lemma {:induction false} EdgesGraphPairs(g0: DiGraph, es: seq<SemEdge>, u: string, v: string)
    requires Valid(g0) && g0.data == map[]
    ensures |SupportsFor(es, u, v)| == |PredicatesFor(es, u, v)|
    ensures HasEdge(EdgesGraph(g0, es), u, v) <==> PredicatesFor(es, u, v) != []
    ensures HasEdge(EdgesGraph(g0, es), u, v) ==>
              EdgesGraph(g0, es).data[(u, v)].predicates == PredicatesFor(es, u, v)
              && EdgesGraph(g0, es).data[(u, v)].supports == SupportsFor(es, u, v)
  {
    if es != [] {
      var pre := es[..|es| - 1];
      var e := es[|es| - 1];
      EdgesGraphPairs(g0, pre, u, v);
      AddEdgeEntryPair(EdgesGraph(g0, pre), e, u, v);
      assert EdgesGraph(g0, es) == AddEdgeEntry(EdgesGraph(g0, pre), e);
      assert PredicatesFor(es, u, v) == PredicatesFor(pre, u, v) + (if Feeds(e, u, v) then [e.pred.value] else []);
      assert SupportsFor(es, u, v) == SupportsFor(pre, u, v) + (if Feeds(e, u, v) then [e.support] else []);
    }
  }

  lemma GraphOfPairs(sg: SemanticGraph, u: string, v: string)
    ensures HasEdge(GraphOf(sg), u, v) <==> PredicatesFor(sg.edges, u, v) != []
    ensures HasEdge(GraphOf(sg), u, v) ==>
              GraphOf(sg).data[(u, v)].predicates == PredicatesFor(sg.edges, u, v)
              && GraphOf(sg).data[(u, v)].supports == SupportsFor(sg.edges, u, v)
  {
    EdgesGraphPairs(NodesGraph(sg.nodes), sg.edges, u, v);
  }

  /** `_graph_to_nx`: the node loop, then the edge loop, updating one graph in place. */
  method GraphToNx(sg: SemanticGraph) returns (g: DiGraph)
    ensures g == GraphOf(sg)
    ensures Valid(g)
  {
    g := AddNodeEntries(sg.nodes);
    ghost var g0 := g;
    var j := 0;
    while j < |sg.edges|
      invariant 0 <= j <= |sg.edges|
      invariant Valid(g)
      invariant g == EdgesGraph(g0, sg.edges[..j])
    {
      assert sg.edges[..j + 1][..j] == sg.edges[..j];
      var e := sg.edges[j];
      assert EdgesGraph(g0, sg.edges[..j + 1]) == AddEdgeEntry(g, e);
      if e.subject.Some? && e.obj.Some? && e.pred.Some? {
        var u, v := e.subject.value, e.obj.value;
        if HasEdge(g, u, v) {
          g := SetEdgeData(g, u, v, Extend(g.data[(u, v)], e));
        } else {
          g := AddEdge(g, u, v, Extend(NoData, e));
        }
      }
      j := j + 1;
    }
    assert sg.edges[..j] == sg.edges;
  }

  // =====================================================================
  // _alias_to_canonical_map
  // =====================================================================

  /** `m[text] = text`, then `m[a] = text` for each alias in order. */
  function AddAliases(m: map<string, string>, aliases: seq<string>, text: string): (r: map<string, string>)
    ensures r.Keys == m.Keys + set a | a in aliases
    ensures forall a :: a in aliases ==> r[a] == text
    ensures forall k :: k in m && k !in aliases ==> r[k] == m[k]
  {
    if aliases == [] then m
    else
      var r := AddAliases(m, aliases[..|aliases| - 1], text)[aliases[|aliases| - 1] := text];
      assert forall a :: a in aliases <==> a in aliases[..|aliases| - 1] || a == aliases[|aliases| - 1] by {
        assert aliases == aliases[..|aliases| - 1] + [aliases[|aliases| - 1]];
      }
      r
  }

  /** The node `n` is a dict node with a truthy text that names `k` (its text or one of its aliases). */
  predicate Names(n: SemNode, k: string)
  {
    n.NodeDict? && n.text != "" && (k == n.text || k in n.aliases)
  }

  /** The map `_alias_to_canonical_map` builds from the "nodes" list. */
  function AliasMap(ns: seq<SemNode>): (m: map<string, string>)
  {
    if ns == [] then map[]
    else
      var m := AliasMap(ns[..|ns| - 1]);
      var n := ns[|ns| - 1];
      if n.NotDict? || n.text == "" then m
      else AddAliases(m[n.text := n.text], n.aliases, n.text)
  }

  /** Some node of `ns` names `k` and has text `t`. */
  predicate NamedBy(ns: seq<SemNode>, k: string, t: string)
  {
    exists i :: 0 <= i < |ns| && Names(ns[i], k) && ns[i].text == t
  }

  /**
   * Every canonical text and every alias of a dict node with a truthy text
   * is a key, nothing else is, and each key maps to the text of a node
   * that names it.
   */
  lemma {:induction false} AliasMapSpec(ns: seq<SemNode>, k: string)
    ensures k in AliasMap(ns) <==> exists i :: 0 <= i < |ns| && Names(ns[i], k)
    ensures k in AliasMap(ns) ==> NamedBy(ns, k, AliasMap(ns)[k])
  {
    if ns != [] {
      var pre := ns[..|ns| - 1];
      var n := ns[|ns| - 1];
      AliasMapSpec(pre, k);
      var m := AliasMap(pre);
      if exists i :: 0 <= i < |pre| && Names(pre[i], k) {
        var i :| 0 <= i < |pre| && Names(pre[i], k);
        assert Names(ns[i], k);
      }
      if exists i :: 0 <= i < |ns| && Names(ns[i], k) {
        var i :| 0 <= i < |ns| && Names(ns[i], k);
        if i < |pre| { assert Names(pre[i], k); }
      }
      if k in m {
        var i :| 0 <= i < |pre| && Names(pre[i], k) && pre[i].text == m[k];
        assert Names(ns[i], k) && ns[i].text == m[k];
      }
      if Names(n, k) {
        assert AliasMap(ns)[k] == n.text;
        assert Names(ns[|ns| - 1], k);
      }
    }
  }

  /** The last node naming a key wins: its own text and aliases map to its text. */
  lemma LastNodeWins(ns: seq<SemNode>, k: string)
    requires ns != [] && Names(ns[|ns| - 1], k)
    ensures k in AliasMap(ns) && AliasMap(ns)[k] == ns[|ns| - 1].text
  {
  }

  // =====================================================================
  // _path_contains_bad_node
  // =====================================================================

  /** `for n in path[1:-1]: if n.lower() in stoplist` */
  function StoplistedInner(path: seq<string>, stoplist: set<string>): bool
  {
    if |path| <= 2 then false
    else Lower(path[|path| - 2]) in stoplist || StoplistedInner(path[..|path| - 1], stoplist)
  }

  /** `_path_contains_bad_node` */
  function PathContainsBadNode(path: seq<string>, stoplist: set<string>): bool
  {
    |path| != |SetOf(path)| || StoplistedInner(path, stoplist)
  }

  lemma {:induction false} StoplistedInnerSpec(path: seq<string>, stoplist: set<string>)
    ensures StoplistedInner(path, stoplist) <==>
              exists i :: 1 <= i < |path| - 1 && Lower(path[i]) in stoplist
  {
    if |path| > 2 {
      var pre := path[..|path| - 1];
      StoplistedInnerSpec(pre, stoplist);
      assert forall i :: 0 <= i < |pre| ==> pre[i] == path[i];
    }
  }

  /**
   * A path is discarded iff it repeats a node or one of its intermediate
   * nodes is stoplisted (compared lowercase); the endpoints are never
   * checked against the stoplist.
   */
  lemma BadNodeIff(path: seq<string>, stoplist: set<string>)
    ensures PathContainsBadNode(path, stoplist) <==>
              !Distinct(path) || exists i :: 1 <= i < |path| - 1 && Lower(path[i]) in stoplist
  {
    SetOfSize(path);
    StoplistedInnerSpec(path, stoplist);
  }

  // =====================================================================
  // _is_valid_discovery_path and _get_discovery_mode_paths
  // =====================================================================

  /** `_is_valid_discovery_path`: only 3-node paths are checked. */
  predicate IsValidDiscoveryPath(path: seq<string>, g: DiGraph)
  {
    if |path| != 3 then true
    else
      var (a, b, c) := (path[0], path[1], path[2]);
      if a == c then false
      else if !HasEdge(g, a, b) then false
      else if !HasEdge(g, b, c) then false
      else if HasEdge(g, a, c) then false
      else if HasEdge(g, c, a) then false
      else if HasEdge(g, b, a) then false
      else if HasEdge(g, c, b) then false
      else true
  }

  /**
   * An independent reading of the discovery rule: a 3-node path is valid
   * iff its three nodes are distinct and, among them, the only edges
   * between different nodes are the two chain edges a -> b and b -> c.
   */
  lemma ValidDiscoveryIsInducedChain(path: seq<string>, g: DiGraph)
    requires |path| == 3
    ensures IsValidDiscoveryPath(path, g) <==>
              Distinct(path) &&
              forall i, j :: 0 <= i < 3 && 0 <= j < 3 && i != j ==>
                (HasEdge(g, path[i], path[j]) <==> j == i + 1)
  {
    var (a, b, c) := (path[0], path[1], path[2]);
    if IsValidDiscoveryPath(path, g) {
      assert a != b && b != c;
    }
    if Distinct(path) && forall i, j :: 0 <= i < 3 && 0 <= j < 3 && i != j ==>
                (HasEdge(g, path[i], path[j]) <==> j == i + 1) {
      assert HasEdge(g, path[0], path[1]);
      assert HasEdge(g, path[1], path[2]);
      assert !HasEdge(g, path[0], path[2]);
      assert !HasEdge(g, path[2], path[0]);
      assert !HasEdge(g, path[1], path[0]);
      assert !HasEdge(g, path[2], path[1]);
    }
  }

  /** `for C in G.successors(B): path = [A, B, C]` keeping the valid ones. */
  function ChainsAB(g: DiGraph, a: string, b: string, cs: seq<string>): seq<seq<string>>
  {
    if cs == [] then []
    else
      var p := [a, b, cs[|cs| - 1]];
      ChainsAB(g, a, b, cs[..|cs| - 1]) + (if IsValidDiscoveryPath(p, g) then [p] else [])
  }

  /** `for A in G.predecessors(B): ...` */
  function ChainsB(g: DiGraph, as_: seq<string>, b: string): seq<seq<string>>
  {
    if as_ == [] then []
    else ChainsB(g, as_[..|as_| - 1], b) + ChainsAB(g, as_[|as_| - 1], b, Successors(g, b))
  }

  /** `for B in G.nodes(): ...` */
  function ChainsOver(g: DiGraph, bs: seq<string>): seq<seq<string>>
  {
    if bs == [] then []
    else ChainsOver(g, bs[..|bs| - 1]) + ChainsB(g, Predecessors(g, bs[|bs| - 1]), bs[|bs| - 1])
  }

  /** `_get_discovery_mode_paths(G)`, in generator order. */
  function DiscoveryPaths(g: DiGraph): seq<seq<string>>
  {
    ChainsOver(g, g.nodes)
  }

  lemma {:induction false} ChainsABSpec(g: DiGraph, a: string, b: string, cs: seq<string>, p: seq<string>)
    ensures p in ChainsAB(g, a, b, cs) <==>
              |p| == 3 && p[0] == a && p[1] == b && p[2] in cs && IsValidDiscoveryPath(p, g)
  {
    if cs != [] {
      var pre := cs[..|cs| - 1];
      var c := cs[|cs| - 1];
      var q := [a, b, c];
      ChainsABSpec(g, a, b, pre, p);
      assert ChainsAB(g, a, b, cs) == ChainsAB(g, a, b, pre) + (if IsValidDiscoveryPath(q, g) then [q] else []);
      assert cs == pre + [c];
      if |p| == 3 && p[0] == a && p[1] == b && p[2] == c {
        assert p == q;
      }
    }
  }

  lemma {:induction false} ChainsBSpec(g: DiGraph, as_: seq<string>, b: string, p: seq<string>)
    ensures p in ChainsB(g, as_, b) <==>
              |p| == 3 && p[0] in as_ && p[1] == b && p[2] in Successors(g, b) && IsValidDiscoveryPath(p, g)
  {
    if as_ != [] {
      ChainsBSpec(g, as_[..|as_| - 1], b, p);
      ChainsABSpec(g, as_[|as_| - 1], b, Successors(g, b), p);
      assert as_ == as_[..|as_| - 1] + [as_[|as_| - 1]];
    }
  }

  lemma {:induction false} ChainsOverSpec(g: DiGraph, bs: seq<string>, p: seq<string>)
    ensures p in ChainsOver(g, bs) <==>
              |p| == 3 && p[0] in Predecessors(g, p[1]) && p[1] in bs && p[2] in Successors(g, p[1])
              && IsValidDiscoveryPath(p, g)
  {
    if bs != [] {
      var b := bs[|bs| - 1];
      ChainsOverSpec(g, bs[..|bs| - 1], p);
      ChainsBSpec(g, Predecessors(g, b), b, p);
      assert bs == bs[..|bs| - 1] + [b];
    }
  }

  /**
   * Discovery mode yields exactly the valid 3-node chains [A, B, C] of the
   * graph; on a well-formed graph the predecessor/successor conditions are
   * implied by validity itself.
   */
  lemma DiscoveryPathsSpec(g: DiGraph, p: seq<string>)
    requires Valid(g)
    ensures p in DiscoveryPaths(g) <==> |p| == 3 && IsValidDiscoveryPath(p, g)
  {
    ChainsOverSpec(g, g.nodes, p);
    if |p| == 3 {
      PredecessorsIff(g, p[0], p[1]);
      SuccessorsIff(g, p[1], p[2]);
      if IsValidDiscoveryPath(p, g) {
        assert (p[0], p[1]) in g.edges;
      }
    }
  }

  // =====================================================================
  // _check_verification_connection
  // =====================================================================

  datatype ConnectionKind =
    | DirectForward | DirectReverse | TwoHopForward | TwoHopReverse | CommonCause | Collider

  datatype Connection = NotConnected | Connected(kind: ConnectionKind, path: seq<string>)

  /** The first element of `xs` satisfying `p`, as a `for ... if ...: return` loop finds it. */
  function FirstMatch(xs: seq<string>, p: string -> bool): (r: Option<string>)
    ensures r.Some? ==> r.value in xs && p(r.value)
    ensures r.None? <==> forall i :: 0 <= i < |xs| ==> !p(xs[i])
  {
    if xs == [] then None
    else if p(xs[0]) then Some(xs[0])
    else FirstMatch(xs[1..], p)
  }

  /** `for intermediate in G.successors(a): if G.has_edge(intermediate, c)` */
  function TwoHopVia(g: DiGraph, a: string, c: string): Option<string>
  {
    FirstMatch(Successors(g, a), x => HasEdge(g, x, c))
  }

  /** `for intermediate in G.nodes(): ... has_edge(intermediate, s) and has_edge(intermediate, t)` */
  function CommonCauseVia(g: DiGraph, s: string, t: string): Option<string>
  {
    FirstMatch(g.nodes, x => x != s && x != t && HasEdge(g, x, s) && HasEdge(g, x, t))
  }

  /** `for intermediate in G.nodes(): ... has_edge(s, intermediate) and has_edge(t, intermediate)` */
  function ColliderVia(g: DiGraph, s: string, t: string): Option<string>
  {
    FirstMatch(g.nodes, x => x != s && x != t && HasEdge(g, s, x) && HasEdge(g, t, x))
  }

  /** `_check_verification_connection(source, target, G)` */
  function CheckVerificationConnection(s: string, t: string, g: DiGraph): (r: Connection)
  {
    if !HasNode(g, s) || !HasNode(g, t) then NotConnected
    else if HasEdge(g, s, t) then Connected(DirectForward, [s, t])
    else if HasEdge(g, t, s) then Connected(DirectReverse, [t, s])
    else if TwoHopVia(g, s, t).Some? then Connected(TwoHopForward, [s, TwoHopVia(g, s, t).value, t])
    else if TwoHopVia(g, t, s).Some? then Connected(TwoHopReverse, [t, TwoHopVia(g, t, s).value, s])
    else if CommonCauseVia(g, s, t).Some? then Connected(CommonCause, [s, CommonCauseVia(g, s, t).value, t])
    else if ColliderVia(g, s, t).Some? then Connected(Collider, [s, ColliderVia(g, s, t).value, t])
    else NotConnected
  }

  ghost predicate TwoHop(g: DiGraph, a: string, c: string)
  {
    exists x :: HasEdge(g, a, x) && HasEdge(g, x, c)
  }

  ghost predicate CommonCauseOf(g: DiGraph, s: string, t: string)
  {
    exists x :: x != s && x != t && HasEdge(g, x, s) && HasEdge(g, x, t)
  }

  ghost predicate ColliderOf(g: DiGraph, s: string, t: string)
  {
    exists x :: x != s && x != t && HasEdge(g, s, x) && HasEdge(g, t, x)
  }

  /** The successor scan finds an intermediate iff a 2-hop path exists. */
  lemma TwoHopViaSpec(g: DiGraph, a: string, c: string)
    requires Valid(g)
    ensures TwoHopVia(g, a, c).Some? <==> TwoHop(g, a, c)
    ensures TwoHopVia(g, a, c).Some? ==>
              HasEdge(g, a, TwoHopVia(g, a, c).value) && HasEdge(g, TwoHopVia(g, a, c).value, c)
  {
    var r := TwoHopVia(g, a, c);
    if TwoHop(g, a, c) {
      var x :| HasEdge(g, a, x) && HasEdge(g, x, c);
      SuccessorsIff(g, a, x);
      var k :| 0 <= k < |Successors(g, a)| && Successors(g, a)[k] == x;
    }
    if r.Some? { SuccessorsIff(g, a, r.value); }
  }

  /** The node scan finds a common cause iff one exists (every edge end is a node). */
  lemma CommonCauseViaSpec(g: DiGraph, s: string, t: string)
    requires Valid(g)
    ensures CommonCauseVia(g, s, t).Some? <==> CommonCauseOf(g, s, t)
  {
    if CommonCauseOf(g, s, t) {
      var x :| x != s && x != t && HasEdge(g, x, s) && HasEdge(g, x, t);
      assert (x, s) in g.edges;
      var k :| 0 <= k < |g.edges| && g.edges[k] == (x, s);
      var m :| 0 <= m < |g.nodes| && g.nodes[m] == x;
    }
  }

  /** The node scan finds a collider iff one exists. */
  lemma ColliderViaSpec(g: DiGraph, s: string, t: string)
    requires Valid(g)
    ensures ColliderVia(g, s, t).Some? <==> ColliderOf(g, s, t)
  {
    if ColliderOf(g, s, t) {
      var x :| x != s && x != t && HasEdge(g, s, x) && HasEdge(g, t, x);
      assert (s, x) in g.edges;
      var k :| 0 <= k < |g.edges| && g.edges[k] == (s, x);
      var m :| 0 <= m < |g.nodes| && g.nodes[m] == x;
    }
  }

  /** The first pattern, in the fixed priority order, that joins `s` and `t`. */
  ghost function FirstPattern(g: DiGraph, s: string, t: string): Option<ConnectionKind>
  {
    if HasEdge(g, s, t) then Some(DirectForward)
    else if HasEdge(g, t, s) then Some(DirectReverse)
    else if TwoHop(g, s, t) then Some(TwoHopForward)
    else if TwoHop(g, t, s) then Some(TwoHopReverse)
    else if CommonCauseOf(g, s, t) then Some(CommonCause)
    else if ColliderOf(g, s, t) then Some(Collider)
    else None
  }

  /**
   * Verification connectivity: nothing is found when either endpoint is
   * missing; otherwise the kind reported is the first pattern, in the
   * order direct forward, direct reverse, 2-hop forward, 2-hop reverse,
   * common cause, collider, that exists in the graph, and the reported
   * path is a witness of that pattern.
   */
  lemma VerificationConnectionSpec(s: string, t: string, g: DiGraph)
    requires Valid(g)
    ensures var r := CheckVerificationConnection(s, t, g);
      && (!HasNode(g, s) || !HasNode(g, t) ==> r == NotConnected)
      && (HasNode(g, s) && HasNode(g, t) ==>
            (r.NotConnected? <==> FirstPattern(g, s, t).None?)
            && (r.Connected? ==> r.kind == FirstPattern(g, s, t).value))
      && (r.Connected? ==> ConnectionWitness(g, s, t, r))
  {
    TwoHopViaSpec(g, s, t);
    TwoHopViaSpec(g, t, s);
    CommonCauseViaSpec(g, s, t);
    ColliderViaSpec(g, s, t);
    ConnectionWitnessHolds(s, t, g);
  }

  lemma ConnectionWitnessHolds(s: string, t: string, g: DiGraph)
    requires Valid(g)
    ensures var r := CheckVerificationConnection(s, t, g);
      r.Connected? ==> ConnectionWitness(g, s, t, r)
  {
    TwoHopViaSpec(g, s, t);
    TwoHopViaSpec(g, t, s);
  }

  /** The reported path realises the reported pattern. */
  predicate ConnectionWitness(g: DiGraph, s: string, t: string, r: Connection)
    requires r.Connected?
  {
    match r.kind
    case DirectForward => r.path == [s, t] && HasEdge(g, s, t)
    case DirectReverse => r.path == [t, s] && HasEdge(g, t, s)
    case TwoHopForward => |r.path| == 3 && r.path[0] == s && r.path[2] == t
                          && HasEdge(g, s, r.path[1]) && HasEdge(g, r.path[1], t)
    case TwoHopReverse => |r.path| == 3 && r.path[0] == t && r.path[2] == s
                          && HasEdge(g, t, r.path[1]) && HasEdge(g, r.path[1], s)
    case CommonCause => |r.path| == 3 && r.path[0] == s && r.path[2] == t && r.path[1] !in {s, t}
                        && HasEdge(g, r.path[1], s) && HasEdge(g, r.path[1], t)
    case Collider => |r.path| == 3 && r.path[0] == s && r.path[2] == t && r.path[1] !in {s, t}
                     && HasEdge(g, s, r.path[1]) && HasEdge(g, t, r.path[1])
  }

  // =====================================================================
  // _edge_strength_for_hop and _build_hypothesis
  // =====================================================================

  /** `_edge_strength_for_hop`: the best support recorded on u -> v, 0 without an edge or supports. */
  function EdgeStrength(u: string, v: string, g: DiGraph): (r: int)
    ensures !HasEdge(g, u, v) || g.data[(u, v)].supports == [] ==> r == 0
    ensures HasEdge(g, u, v) && g.data[(u, v)].supports != [] ==>
              r in g.data[(u, v)].supports && forall x :: x in g.data[(u, v)].supports ==> x <= r
  {
    if !HasEdge(g, u, v) then 0
    else
      var s := g.data[(u, v)].supports;
      if s == [] then 0 else MaxOf(s)
  }

  /** The strength of every hop of `path`, in order. */
  function HopStrengths(path: seq<string>, g: DiGraph): (r: seq<int>)
    ensures |path| <= 1 ==> r == []
    ensures |path| > 1 ==> |r| == |path| - 1
    ensures forall i :: 0 <= i < |r| ==> r[i] == EdgeStrength(path[i], path[i + 1], g)
  {
    if |path| <= 1 then []
    else HopStrengths(path[..|path| - 1], g) + [EdgeStrength(path[|path| - 2], path[|path| - 1], g)]
  }

  /** `min(hop_strengths) if hop_strengths else 0`. */
  function PathConfidence(path: seq<string>, g: DiGraph): int
  {
    var hs := HopStrengths(path, g);
    if hs == [] then 0 else MinOf(hs)
  }

  /**
   * Weakest link: the confidence of a path with at least one hop is the
   * strength of one of its hops and no hop is weaker; a path without hops
   * has confidence 0.
   */
  lemma WeakestLink(path: seq<string>, g: DiGraph)
    ensures |path| <= 1 ==> PathConfidence(path, g) == 0
    ensures |path| > 1 ==>
              (exists i :: 0 <= i < |path| - 1 && PathConfidence(path, g) == EdgeStrength(path[i], path[i + 1], g))
              && forall i :: 0 <= i < |path| - 1 ==> PathConfidence(path, g) <= EdgeStrength(path[i], path[i + 1], g)
  {
    var hs := HopStrengths(path, g);
    if |path| > 1 {
      var k :| 0 <= k < |hs| && hs[k] == MinOf(hs);
      assert PathConfidence(path, g) == EdgeStrength(path[k], path[k + 1], g);
    }
  }

  /** The predicate list stored on a hop, [] without an edge. */
  function HopPredicates(u: string, v: string, g: DiGraph): seq<string>
  {
    if HasEdge(g, u, v) then g.data[(u, v)].predicates else []
  }

  /** Predicates of every hop, flattened in hop order. */
  function FlatPredicates(path: seq<string>, g: DiGraph): seq<string>
  {
    if |path| <= 1 then []
    else FlatPredicates(path[..|path| - 1], g) + HopPredicates(path[|path| - 2], path[|path| - 1], g)
  }

  /** `f"{u} -[{', '.join(preds)}]-> {v}" if preds else f"{u} -> {v}"` */
  function HopText(u: string, v: string, preds: seq<string>): string
  {
    if preds == [] then u + " -> " + v else u + " -[" + Join(preds, ", ") + "]-> " + v
  }

  function HopTexts(path: seq<string>, g: DiGraph): (r: seq<string>)
    ensures |path| > 1 ==> |r| == |path| - 1
  {
    if |path| <= 1 then []
    else HopTexts(path[..|path| - 1], g) + [HopText(path[|path| - 2], path[|path| - 1], HopPredicates(path[|path| - 2], path[|path| - 1], g))]
  }

  /** Which id list of an edge to aggregate. */
  datatype IdKind = TripleIds | SourceIds | BlockIds

  function HopIds(u: string, v: string, g: DiGraph, k: IdKind): seq<int>
  {
    if !HasEdge(g, u, v) then []
    else
      var d := g.data[(u, v)];
      Flatten(match k case TripleIds => d.tripleIdsList case SourceIds => d.sourceIdsList case BlockIds => d.blockIdsList)
  }

  /** Every id of kind `k` recorded on any hop of the path. */
  function PathIds(path: seq<string>, g: DiGraph, k: IdKind): seq<int>
  {
    if |path| <= 1 then []
    else PathIds(path[..|path| - 1], g, k) + HopIds(path[|path| - 2], path[|path| - 1], g, k)
  }

  /** `_build_hypothesis(path, G, mode)` */
  function BuildHypothesis(path: seq<string>, g: DiGraph, mode: string): (h: Hypothesis)
    requires path != []
    ensures h.source == path[0] && h.target == path[|path| - 1] && h.path == path
    ensures StrictlyIncreasing(h.tripleIds) && StrictlyIncreasing(h.sourceIds) && StrictlyIncreasing(h.blockIds)
    ensures forall x :: x in h.tripleIds <==> x in PathIds(path, g, TripleIds)
    ensures !h.passedFilter && h.filterReason.None?
  {
    Hypothesis(
      source := path[0],
      target := path[|path| - 1],
      path := path,
      predicates := FlatPredicates(path, g),
      explanation := Join(HopTexts(path, g), " then "),
      confidence := PathConfidence(path, g),
      mode := mode,
      tripleIds := SortedSet(PathIds(path, g, TripleIds)),
      sourceIds := SortedSet(PathIds(path, g, SourceIds)),
      blockIds := SortedSet(PathIds(path, g, BlockIds)),
      passedFilter := false,
      filterReason := None,
      domain := None)
  }

  // =====================================================================
  // run_path_reasoning
  // =====================================================================

  /** `max(1.0, min(2.0, factor))` */
  function ClampFactor(x: real): (r: real)
    ensures 1.0 <= r <= 2.0
    ensures 1.0 <= x <= 2.0 ==> r == x
  {
    MaxReal(1.0, MinReal(2.0, x))
  }

  /** `set(s.lower() for s in xs)` */
  function LowerSet(xs: seq<string>): (r: set<string>)
    ensures forall x :: x in r <==> exists i :: 0 <= i < |xs| && x == Lower(xs[i])
  {
    if xs == [] then {}
    else
      var r := LowerSet(xs[..|xs| - 1]) + {Lower(xs[|xs| - 1])};
      assert forall i :: 0 <= i < |xs| - 1 ==> xs[..|xs| - 1][i] == xs[i];
      r
  }

  /** Some predicate of the hypothesis, lowercased, is preferred. */
  predicate HasPreferred(h: Hypothesis, preferred: set<string>)
  {
    exists i :: 0 <= i < |h.predicates| && Lower(h.predicates[i]) in preferred
  }

  /** The preferred-predicate boost applied to one hypothesis. */
  function Boost(h: Hypothesis, preferred: set<string>, factor: real): (r: Hypothesis)
    requires 1.0 <= factor <= 2.0
    ensures r.(confidence := h.confidence) == h
    ensures !HasPreferred(h, preferred) ==> r == h
    ensures HasPreferred(h, preferred) ==> r.confidence <= 100
  {
    if HasPreferred(h, preferred) then
      h.(confidence := Min(TruncReal(h.confidence as real * factor), 100))
    else h
  }

  /** A boosted confidence in [0, 100] never goes down, because the factor is at least 1. */
  lemma BoostNeverLowers(h: Hypothesis, preferred: set<string>, factor: real)
    requires 1.0 <= factor <= 2.0 && 0 <= h.confidence <= 100
    ensures h.confidence <= Boost(h, preferred, factor).confidence <= 100
  {
    TruncScaleAtLeast(h.confidence, factor);
  }

  /** The dedup key `(source, target, tuple(path))`. */
  function Key(h: Hypothesis): (string, string, seq<string>) { (h.source, h.target, h.path) }

  /** Some hypothesis of `hs` already has key `k` (`key in seen_hypotheses`). */
  predicate KeyUsed(hs: seq<Hypothesis>, k: (string, string, seq<string>))
  {
    exists i :: 0 <= i < |hs| && Key(hs[i]) == k
  }

  lemma KeyUsedSnoc(hs: seq<Hypothesis>, h: Hypothesis)
    ensures forall k :: KeyUsed(hs + [h], k) <==> KeyUsed(hs, k) || k == Key(h)
  {
    var t := hs + [h];
    forall k | KeyUsed(t, k) && k != Key(h) ensures KeyUsed(hs, k) {
      var m :| 0 <= m < |t| && Key(t[m]) == k;
      assert t[m] == hs[m];
    }
    forall k | KeyUsed(hs, k) ensures KeyUsed(t, k) {
      var m :| 0 <= m < |hs| && Key(hs[m]) == k;
      assert t[m] == hs[m];
    }
    assert Key(t[|hs|]) == Key(h);
  }

  /** A candidate survives the deterministic filters. */
  predicate Admissible(p: seq<string>, g: DiGraph, stoplist: set<string>)
    requires p != []
  {
    !PathContainsBadNode(p, stoplist) && !HasEdge(g, p[0], p[|p| - 1])
  }

  /** The admissible candidates of `ps`, each built into a hypothesis, in order. */
  function Built(ps: seq<seq<string>>, g: DiGraph, stoplist: set<string>, mode: string): (hs: seq<Hypothesis>)
    requires forall i :: 0 <= i < |ps| ==> ps[i] != []
    ensures forall h :: h in hs ==>
              exists i :: 0 <= i < |ps| && Admissible(ps[i], g, stoplist) && h == BuildHypothesis(ps[i], g, mode)
  {
    if ps == [] then []
    else
      var pre := ps[..|ps| - 1];
      var p := ps[|ps| - 1];
      assert forall i :: 0 <= i < |pre| ==> pre[i] == ps[i];
      Built(pre, g, stoplist, mode) + (if Admissible(p, g, stoplist) then [BuildHypothesis(p, g, mode)] else [])
  }

  lemma BuiltSnoc(ps: seq<seq<string>>, i: nat, g: DiGraph, stoplist: set<string>, mode: string)
    requires i < |ps| && forall k :: 0 <= k < |ps| ==> ps[k] != []
    ensures Built(ps[..i + 1], g, stoplist, mode) ==
            Built(ps[..i], g, stoplist, mode) + (if Admissible(ps[i], g, stoplist) then [BuildHypothesis(ps[i], g, mode)] else [])
  {
    assert ps[..i + 1][..i] == ps[..i];
  }

  /** `if key in seen_hypotheses: continue`: keep the first hypothesis of each key. */
  function DedupByKey(hs: seq<Hypothesis>): (r: seq<Hypothesis>)
    ensures forall h :: h in r ==> h in hs
  {
    if hs == [] then []
    else
      var prev := DedupByKey(hs[..|hs| - 1]);
      var h := hs[|hs| - 1];
      if KeyUsed(prev, Key(h)) then prev else prev + [h]
  }

  lemma DedupByKeySnoc(hs: seq<Hypothesis>, h: Hypothesis)
    ensures DedupByKey(hs + [h]) == if KeyUsed(DedupByKey(hs), Key(h)) then DedupByKey(hs) else DedupByKey(hs) + [h]
  {
    assert (hs + [h])[..|hs|] == hs;
  }

  /** No two hypotheses of `hs` share (source, target, path). */
  predicate KeysDistinct(hs: seq<Hypothesis>)
  {
    forall i, j :: 0 <= i < j < |hs| ==> Key(hs[i]) != Key(hs[j])
  }

  /** No two hypotheses kept by the dedup share (source, target, path). */
  lemma {:induction false} DedupByKeyUnique(hs: seq<Hypothesis>)
    ensures KeysDistinct(DedupByKey(hs))
  {
    if hs != [] {
      var prev := DedupByKey(hs[..|hs| - 1]);
      DedupByKeyUnique(hs[..|hs| - 1]);
      var h := hs[|hs| - 1];
      if !KeyUsed(prev, Key(h)) {
        var r := prev + [h];
        forall i, j | 0 <= i < j < |r| ensures Key(r[i]) != Key(r[j]) {
          if j == |r| - 1 {
            assert r[i] == prev[i] && r[j] == h;
          } else {
            assert r[i] == prev[i] && r[j] == prev[j];
          }
        }
      }
    }
  }

  /** The dedup drops nothing whose key it has not already kept. */
  lemma {:induction false} DedupByKeyComplete(hs: seq<Hypothesis>, h: Hypothesis)
    requires h in hs
    ensures KeyUsed(DedupByKey(hs), Key(h))
  {
    var pre := hs[..|hs| - 1];
    var prev := DedupByKey(pre);
    var r := DedupByKey(hs);
    if h in pre {
      DedupByKeyComplete(pre, h);
      var m :| 0 <= m < |prev| && Key(prev[m]) == Key(h);
      if r != prev { assert r[m] == prev[m]; }
    } else if !KeyUsed(prev, Key(hs[|hs| - 1])) {
      assert r[|r| - 1] == h;
    }
  }

  /** The candidate paths of a mode: every discovery path, or those touching a seed. */
  function Candidates(g: DiGraph, mode: string, seeds: set<string>): (r: seq<seq<string>>)
  {
    var all := DiscoveryPaths(g);
    if mode == "explore" then all
    else SeedFilter(all, seeds)
  }

  /** `(p for p in all_paths if p[0] in seed_set or p[-1] in seed_set)` */
  function SeedFilter(ps: seq<seq<string>>, seeds: set<string>): (r: seq<seq<string>>)
    ensures forall p :: p in r <==> p in ps && p != [] && (p[0] in seeds || p[|p| - 1] in seeds)
  {
    if ps == [] then []
    else
      var p := ps[|ps| - 1];
      assert ps == ps[..|ps| - 1] + [p];
      SeedFilter(ps[..|ps| - 1], seeds) + (if p != [] && (p[0] in seeds || p[|p| - 1] in seeds) then [p] else [])
  }

  /** Every candidate path has three nodes. */
  lemma CandidatesAreChains(g: DiGraph, mode: string, seeds: set<string>)
    requires Valid(g)
    ensures forall p :: p in Candidates(g, mode, seeds) ==> |p| == 3 && IsValidDiscoveryPath(p, g)
  {
    forall p | p in Candidates(g, mode, seeds) ensures |p| == 3 && IsValidDiscoveryPath(p, g) {
      DiscoveryPathsSpec(g, p);
    }
  }

  /** The boost loop over the emitted list. */
  function BoostAll(hs: seq<Hypothesis>, preferred: set<string>, factor: real): (r: seq<Hypothesis>)
    requires 1.0 <= factor <= 2.0
    ensures |r| == |hs|
    ensures forall i :: 0 <= i < |hs| ==> r[i] == Boost(hs[i], preferred, factor)
  {
    if hs == [] then []
    else BoostAll(hs[..|hs| - 1], preferred, factor) + [Boost(hs[|hs| - 1], preferred, factor)]
  }

  /** The candidate loop of `run_path_reasoning`, with its `seen_hypotheses` set. */
  method EmitHypotheses(ps: seq<seq<string>>, g: DiGraph, stop: set<string>, mode: string)
    returns (hyps: seq<Hypothesis>)
    requires forall i :: 0 <= i < |ps| ==> ps[i] != []
    ensures hyps == DedupByKey(Built(ps, g, stop, mode))
  {
    hyps := [];
    var seen: set<(string, string, seq<string>)> := {};
    var i := 0;
    while i < |ps|
      invariant 0 <= i <= |ps|
      invariant hyps == DedupByKey(Built(ps[..i], g, stop, mode))
      invariant forall k :: k in seen <==> KeyUsed(hyps, k)
    {
      BuiltSnoc(ps, i, g, stop, mode);
      ghost var before := Built(ps[..i], g, stop, mode);
      var path := ps[i];
      if Admissible(path, g, stop) {
        var h := BuildHypothesis(path, g, mode);
        assert Built(ps[..i + 1], g, stop, mode) == before + [h];
        DedupByKeySnoc(before, h);
        if Key(h) !in seen {
          seen := seen + {Key(h)};
          KeyUsedSnoc(hyps, h);
          hyps := hyps + [h];
        }
      } else {
        assert Built(ps[..i + 1], g, stop, mode) == before;
      }
      i := i + 1;
    }
    assert ps[..i] == ps;
  }

  /** The boost loop, rewriting each hypothesis's confidence in place. */
  method ApplyBoost(hs: seq<Hypothesis>, pref: set<string>, factor: real) returns (r: seq<Hypothesis>)
    requires 1.0 <= factor <= 2.0
    ensures r == BoostAll(hs, pref, factor)
  {
    r := hs;
    var j := 0;
    while j < |r|
      invariant 0 <= j <= |r| && |r| == |hs|
      invariant forall k :: 0 <= k < j ==> r[k] == Boost(hs[k], pref, factor)
      invariant forall k :: j <= k < |r| ==> r[k] == hs[k]
    {
      r := r[j := Boost(r[j], pref, factor)];
      j := j + 1;
    }
  }

  /**
   * `run_path_reasoning` up to the boost: a mode other than "explore" or
   * "query" fails; query mode without seeds gives []; otherwise the
   * candidates of the mode are filtered, built, deduplicated and boosted.
   */
  method RunPathReasoning(sg: SemanticGraph, mode: string, seeds: seq<string>, stoplist: seq<string>,
                          preferred: seq<string>, boostFactor: real)
    returns (r: Outcome<seq<Hypothesis>>)
    ensures mode != "explore" && mode != "query" ==> r.Failure?
    ensures mode == "query" && seeds == [] ==> r == Success([])
    ensures r.Success? && !(mode == "query" && seeds == []) ==>
              var g := GraphOf(sg);
              var ps := Candidates(g, mode, SetOf(seeds));
              (forall i :: 0 <= i < |ps| ==> ps[i] != []) &&
              r.value == BoostAll(DedupByKey(Built(ps, g, LowerSet(stoplist), mode)), LowerSet(preferred), ClampFactor(boostFactor))
  {
    if mode != "explore" && mode != "query" {
      return Failure("ValueError");
    }
    var stop := LowerSet(stoplist);
    var pref := LowerSet(preferred);
    var factor := ClampFactor(boostFactor);
    var g := GraphToNx(sg);
    if mode == "query" && |seeds| == 0 {
      return Success([]);
    }
    var ps := Candidates(g, mode, SetOf(seeds));
    CandidatesAreChains(g, mode, SetOf(seeds));
    var hyps := EmitHypotheses(ps, g, stop, mode);
    hyps := ApplyBoost(hyps, pref, factor);
    return Success(hyps);
  }
}
