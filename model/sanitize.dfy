/**
 * Phase-2.5 graph sanitization: every node of a structural graph is
 * classified, noise nodes are removed together with every edge that
 * touches one, and the surviving nodes become concept nodes.
 */
module Sanitize {
  import opened Common
  import opened GraphTypes
  import opened NodeRules

  /** A structural graph: node texts (`None` for an entry that is not a string) and edges. */
  datatype StructuralGraph = StructuralGraph(nodes: seq<Option<string>>, edges: seq<SemEdge>)

  datatype SanitizeSummary = SanitizeSummary(
    totalNodesBefore: nat, totalNodesAfter: nat, noiseRemoved: nat,
    totalEdgesBefore: nat, totalEdgesAfter: nat)

  datatype Sanitized = Sanitized(
    nodes: seq<SemNode>, edges: seq<SemEdge>, removedNodes: set<Option<string>>, summary: SanitizeSummary)

  /** `noise_nodes`. */
  function NoiseNodes(rules: RemovalRules, nodes: seq<Option<string>>): (r: set<Option<string>>)
    ensures forall n :: n in r <==> n in nodes && Classify(rules, n) == Noise
  {
    set n | n in nodes && Classify(rules, n) == Noise
  }

  /** An edge that does not touch a node of `noise`. */
  predicate Clean(e: SemEdge, noise: set<Option<string>>)
  {
    e.subject !in noise && e.obj !in noise
  }

  /** `clean_edges`. */
  function CleanEdges(edges: seq<SemEdge>, noise: set<Option<string>>): (r: seq<SemEdge>)
    ensures |r| <= |edges|
  {
    if edges == [] then []
    else
      var e := edges[|edges| - 1];
      CleanEdges(edges[..|edges| - 1], noise) + (if Clean(e, noise) then [e] else [])
  }

  /** `output_nodes`: the nodes outside `noise`, in order, as concept nodes. */
  function OutputNodes(nodes: seq<Option<string>>, noise: set<Option<string>>): (r: seq<SemNode>)
    requires None in nodes ==> None in noise
    ensures |r| <= |nodes|
  {
    if nodes == [] then []
    else
      var pre := nodes[..|nodes| - 1];
      var n := nodes[|nodes| - 1];
      assert forall x :: x in pre ==> x in nodes;
      OutputNodes(pre, noise) + (if n !in noise then [NodeDict(n.value, Str("concept"), [])] else [])
  }

  /** `sanitize_graph`. */
  function SanitizeGraph(rules: RemovalRules, g: StructuralGraph): Sanitized
  {
    var noise := NoiseNodes(rules, g.nodes);
    var nodes := OutputNodes(g.nodes, noise);
    var edges := CleanEdges(g.edges, noise);
    Sanitized(nodes, edges, noise,
              SanitizeSummary(|g.nodes|, |nodes|, |noise|, |g.edges|, |edges|))
  }

  // ---------------------------------------------------------------------
  // Reference definitions
  // ---------------------------------------------------------------------

  /** The texts the classifier keeps, in input order. */
  function ConceptTexts(rules: RemovalRules, nodes: seq<Option<string>>): (r: seq<string>)
  {
    if nodes == [] then []
    else
      var n := nodes[|nodes| - 1];
      ConceptTexts(rules, nodes[..|nodes| - 1]) + (if Classify(rules, n) == Concept then [n.value] else [])
  }

  /** The positions of the edges that survive, in increasing order. */
  function CleanIndices(edges: seq<SemEdge>, noise: set<Option<string>>): (r: seq<nat>)
    ensures forall k :: 0 <= k < |r| ==> r[k] < |edges|
  {
    if edges == [] then []
    else
      var i := |edges| - 1;
      CleanIndices(edges[..i], noise) + (if Clean(edges[i], noise) then [i] else [])
  }

  // ---------------------------------------------------------------------
  // Properties
  // ---------------------------------------------------------------------

  /** The output nodes are the kept texts, in input order, each typed "concept" without aliases. */
  lemma {:induction false} OutputNodesSpec(rules: RemovalRules, nodes: seq<Option<string>>)
    ensures var r := OutputNodes(nodes, NoiseNodes(rules, nodes));
      var texts := ConceptTexts(rules, nodes);
      && |r| == |texts|
      && forall i :: 0 <= i < |r| ==> r[i] == NodeDict(texts[i], Str("concept"), [])
  {
    OutputNodesPrefix(rules, nodes, NoiseNodes(rules, nodes));
  }

  /** The nodes are the texts, in order, each as a concept node without aliases. */
  predicate AsConcepts(r: seq<SemNode>, texts: seq<string>)
  {
    |r| == |texts| && forall i :: 0 <= i < |r| ==> r[i] == NodeDict(texts[i], Str("concept"), [])
  }

  lemma AsConceptsAppend(r0: seq<SemNode>, t0: seq<string>, r1: seq<SemNode>, t1: seq<string>)
    requires AsConcepts(r0, t0) && AsConcepts(r1, t1)
    ensures AsConcepts(r0 + r1, t0 + t1)
  {
  }

  lemma {:induction false} OutputNodesPrefix(rules: RemovalRules, nodes: seq<Option<string>>, noise: set<Option<string>>)
    requires forall n :: n in nodes ==> (n in noise <==> Classify(rules, n) == Noise)
    ensures None in nodes ==> None in noise
    ensures AsConcepts(OutputNodes(nodes, noise), ConceptTexts(rules, nodes))
  {
    if nodes != [] {
      var pre := nodes[..|nodes| - 1];
      forall x | x in pre
        ensures x in nodes
      {
        InSnoc(nodes, x);
      }
      InSnoc(nodes, nodes[|nodes| - 1]);
      InSnoc(nodes, None);
      OutputNodesPrefix(rules, pre, noise);
      var n := nodes[|nodes| - 1];
      AsConceptsAppend(OutputNodes(pre, noise), ConceptTexts(rules, pre),
        if n !in noise then [NodeDict(n.value, Str("concept"), [])] else [],
        if Classify(rules, n) == Concept then [n.value] else []);
    }
  }

  /** A text appears among the output nodes iff the input holds it and the classifier keeps it. */
  lemma {:induction false} ConceptTextsMembers(rules: RemovalRules, nodes: seq<Option<string>>, t: string)
    ensures t in ConceptTexts(rules, nodes) <==> Some(t) in nodes && Classify(rules, Some(t)) == Concept
  {
    if nodes != [] {
      var pre := nodes[..|nodes| - 1];
      var n := nodes[|nodes| - 1];
      var extra := if Classify(rules, n) == Concept then [n.value] else [];
      InSnoc(nodes, Some(t));
      ConceptTextsMembers(rules, pre, t);
      InConcat(ConceptTexts(rules, pre), extra, t);
      assert t in extra <==> n == Some(t) && Classify(rules, Some(t)) == Concept;
    }
  }

  /**
   * The surviving edges are the input edges at increasing positions, left
   * unchanged, and an edge is dropped exactly when it touches a noise node.
   */
  lemma {:induction false} CleanEdgesSpec(edges: seq<SemEdge>, noise: set<Option<string>>)
    ensures var r := CleanEdges(edges, noise);
      var idx := CleanIndices(edges, noise);
      && |idx| == |r|
      && (forall k :: 0 <= k < |r| ==> r[k] == edges[idx[k]])
      && (forall k, l :: 0 <= k < l < |idx| ==> idx[k] < idx[l])
      && (forall i :: 0 <= i < |edges| ==> (i in idx <==> Clean(edges[i], noise)))
  {
    if edges != [] {
      var n := |edges| - 1;
      var pre := edges[..n];
      CleanEdgesSpec(pre, noise);
      assert forall i :: 0 <= i < n ==> pre[i] == edges[i];
    }
  }

  /** No surviving edge has a noise subject or object, and every clean edge survives. */
  lemma CleanEdgesMembers(edges: seq<SemEdge>, noise: set<Option<string>>, e: SemEdge)
    ensures e in CleanEdges(edges, noise) <==> e in edges && Clean(e, noise)
  {
    CleanEdgesSpec(edges, noise);
    var r := CleanEdges(edges, noise);
    var idx := CleanIndices(edges, noise);
    if e in r {
      var k :| 0 <= k < |r| && r[k] == e;
    }
    if e in edges && Clean(e, noise) {
      var i :| 0 <= i < |edges| && edges[i] == e;
      var k :| 0 <= k < |idx| && idx[k] == i;
    }
  }

  /**
   * The sanitized graph: its nodes are the kept texts in order, its removed
   * nodes the noise nodes, no edge touches a removed node, and the summary
   * counts are the sizes before and after.
   */
  lemma SanitizeSpec(rules: RemovalRules, g: StructuralGraph)
    ensures var r := SanitizeGraph(rules, g);
      && (forall n :: n in r.removedNodes <==> n in g.nodes && Classify(rules, n) == Noise)
      && |r.nodes| == |ConceptTexts(rules, g.nodes)|
      && (forall i :: 0 <= i < |r.nodes| ==> r.nodes[i] == NodeDict(ConceptTexts(rules, g.nodes)[i], Str("concept"), []))
      && (forall e :: e in r.edges ==> e in g.edges && e.subject !in r.removedNodes && e.obj !in r.removedNodes)
      && r.summary.totalNodesAfter == |r.nodes| <= r.summary.totalNodesBefore == |g.nodes|
      && r.summary.totalEdgesAfter == |r.edges| <= r.summary.totalEdgesBefore == |g.edges|
      && r.summary.noiseRemoved == |r.removedNodes|
  {
    var noise := NoiseNodes(rules, g.nodes);
    OutputNodesSpec(rules, g.nodes);
    forall e | e in CleanEdges(g.edges, noise) ensures e in g.edges && Clean(e, noise) {
      CleanEdgesMembers(g.edges, noise, e);
    }
  }
}
