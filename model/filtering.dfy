/**
 * Phase 4.5, hypothesis filtering (backend/app/path_reasoning/filtering/logic.py):
 * five deterministic rules run in a fixed order over each hypothesis, the
 * first failing rule stops the chain, and the hypothesis is annotated with
 * `passed_filter` and a one-entry `filter_reason`. The rules read a plain
 * directed graph built from the semantic graph and the configuration.
 */
module HypothesisFiltering {
  import opened Common
  import opened GraphTypes
  import opened DiGraphs
  import opened Hypotheses

  // =====================================================================
  // Configuration
  // =====================================================================

  /** The four configuration keys the rules read. */
  datatype Config = Config(
    hubDegreeThreshold: int,
    minConfidence: int,
    genericPredicates: set<string>,
    forbiddenNodeTypes: set<string>)

  /** A caller's `config` dict: `None` for a key it does not set. */
  datatype Overrides = Overrides(
    hubDegreeThreshold: Option<int>,
    minConfidence: Option<int>,
    genericPredicates: Option<set<string>>,
    forbiddenNodeTypes: Option<set<string>>)

  const NoOverrides: Overrides := Overrides(None, None, None, None)

  /** `DEFAULT_CONFIG` of this module. */
  const DefaultConfig: Config :=
    Config(50, 2, {"related_to", "mentions", "about"}, {"entity", "metadata", "citation", "url"})

  /**
   * `cfg = DEFAULT_CONFIG.copy(); cfg.update(config)`, read back through
   * `FilteringContext`: every key stays present after the copy, so the
   * context's own fallbacks (50, 2, empty sets) are never used.
   */
  function Merge(defaults: Config, o: Overrides): (c: Config)
    ensures o.hubDegreeThreshold.Some? ==> c.hubDegreeThreshold == o.hubDegreeThreshold.value
    ensures o.hubDegreeThreshold.None? ==> c.hubDegreeThreshold == defaults.hubDegreeThreshold
    ensures o.minConfidence.Some? ==> c.minConfidence == o.minConfidence.value
    ensures o.minConfidence.None? ==> c.minConfidence == defaults.minConfidence
    ensures o.genericPredicates.Some? ==> c.genericPredicates == o.genericPredicates.value
    ensures o.genericPredicates.None? ==> c.genericPredicates == defaults.genericPredicates
    ensures o.forbiddenNodeTypes.Some? ==> c.forbiddenNodeTypes == o.forbiddenNodeTypes.value
    ensures o.forbiddenNodeTypes.None? ==> c.forbiddenNodeTypes == defaults.forbiddenNodeTypes
  {
    Config(o.hubDegreeThreshold.GetOr(defaults.hubDegreeThreshold),
           o.minConfidence.GetOr(defaults.minConfidence),
           o.genericPredicates.GetOr(defaults.genericPredicates),
           o.forbiddenNodeTypes.GetOr(defaults.forbiddenNodeTypes))
  }

  // =====================================================================
  // _graph_to_nx_for_filtering
  // =====================================================================

  /** An edge dict contributes an edge iff both endpoints are truthy. */
  predicate Joins(e: SemEdge, u: string, v: string)
  {
    Truthy(e.subject) && Truthy(e.obj) && e.subject.value == u && e.obj.value == v
  }

  /** One entry of the edge loop: `G.add_edge(subj, obj)` without attributes. */
  function AddPlainEdge(g: DiGraph, e: SemEdge): (r: DiGraph)
    requires Valid(g)
    ensures Valid(r)
  {
    if Truthy(e.subject) && Truthy(e.obj) then AddEdge(g, e.subject.value, e.obj.value, NoData) else g
  }

  function PlainEdgesGraph(g: DiGraph, es: seq<SemEdge>): (r: DiGraph)
    requires Valid(g)
    ensures Valid(r)
  {
    if es == [] then g else AddPlainEdge(PlainEdgesGraph(g, es[..|es| - 1]), es[|es| - 1])
  }

  /** The graph the rules read. */
  function FilterGraphOf(sg: SemanticGraph): (g: DiGraph)
    ensures Valid(g)
  {
    PlainEdgesGraph(NodesGraph(sg.nodes), sg.edges)
  }

  /** An edge dict touches `u` when it contributes an edge with `u` as an endpoint. */
  predicate Touches(e: SemEdge, u: string)
  {
    Truthy(e.subject) && Truthy(e.obj) && (e.subject.value == u || e.obj.value == u)
  }

  /** One entry of the edge loop, seen from one pair and one node. */
  lemma AddPlainEdgeStep(g: DiGraph, e: SemEdge, u: string, v: string)
    requires Valid(g)
    ensures HasEdge(AddPlainEdge(g, e), u, v) <==> HasEdge(g, u, v) || Joins(e, u, v)
    ensures HasNode(AddPlainEdge(g, e), u) <==> HasNode(g, u) || Touches(e, u)
  {
  }

  /** The edge loop adds an edge (u, v) exactly when some edge dict joins u to v. */
  lemma {:induction false} PlainEdgesGraphEdges(g: DiGraph, es: seq<SemEdge>, u: string, v: string)
    requires Valid(g)
    ensures HasEdge(PlainEdgesGraph(g, es), u, v) <==>
              HasEdge(g, u, v) || exists i :: 0 <= i < |es| && Joins(es[i], u, v)
  {
    if es != [] {
      var pre := es[..|es| - 1];
      PlainEdgesGraphEdges(g, pre, u, v);
      AddPlainEdgeStep(PlainEdgesGraph(g, pre), es[|es| - 1], u, v);
      if exists i :: 0 <= i < |es| && Joins(es[i], u, v) {
        var i :| 0 <= i < |es| && Joins(es[i], u, v);
        if i < |pre| { assert Joins(pre[i], u, v); }
      }
      assert forall i :: 0 <= i < |pre| && Joins(pre[i], u, v) ==> Joins(es[i], u, v);
    }
  }

  /** A node of the edge loop's result is a node it started from or an endpoint of a contributing edge dict. */
  lemma {:induction false} PlainEdgesGraphNodes(g: DiGraph, es: seq<SemEdge>, u: string)
    requires Valid(g)
    ensures HasNode(PlainEdgesGraph(g, es), u) <==>
              HasNode(g, u) || exists i :: 0 <= i < |es| && Touches(es[i], u)
  {
    if es != [] {
      var pre := es[..|es| - 1];
      var e := es[|es| - 1];
      PlainEdgesGraphNodes(g, pre, u);
      AddPlainEdgeStep(PlainEdgesGraph(g, pre), e, u, u);
      if exists i :: 0 <= i < |pre| && Touches(pre[i], u) {
        var i :| 0 <= i < |pre| && Touches(pre[i], u);
        assert es[i] == pre[i];
      }
      if !Touches(e, u) && exists i :: 0 <= i < |es| && Touches(es[i], u) {
        var i :| 0 <= i < |es| && Touches(es[i], u);
        assert i < |pre| && pre[i] == es[i];
      }
    }
  }

  /** An edge of the filtering graph is exactly a pair some edge dict joins. */
  lemma FilterGraphEdges(sg: SemanticGraph, u: string, v: string)
    ensures HasEdge(FilterGraphOf(sg), u, v) <==> exists i :: 0 <= i < |sg.edges| && Joins(sg.edges[i], u, v)
  {
    PlainEdgesGraphEdges(NodesGraph(sg.nodes), sg.edges, u, v);
  }

  /** `_graph_to_nx_for_filtering`: the node loop, then the edge loop. */
  method BuildFilterGraph(sg: SemanticGraph) returns (g: DiGraph)
    ensures g == FilterGraphOf(sg)
  {
    g := AddNodeEntries(sg.nodes);
    ghost var g0 := g;
    var j := 0;
    while j < |sg.edges|
      invariant 0 <= j <= |sg.edges|
      invariant Valid(g)
      invariant g == PlainEdgesGraph(g0, sg.edges[..j])
    {
      assert sg.edges[..j + 1][..j] == sg.edges[..j];
      var e := sg.edges[j];
      assert PlainEdgesGraph(g0, sg.edges[..j + 1]) == AddPlainEdge(g, e);
      if Truthy(e.subject) && Truthy(e.obj) {
        g := AddEdge(g, e.subject.value, e.obj.value, NoData);
      }
      j := j + 1;
    }
    assert sg.edges[..j] == sg.edges;
  }

  // =====================================================================
  // The rules
  // =====================================================================

  /** The state every rule reads: the graph and the merged configuration. */
  datatype Context = Context(graph: DiGraph, config: Config)

  /** A rule's `(passed, failure_msg)`. */
  datatype Verdict = Pass | Fail(message: string)

  /** `ctx.degrees.get(node, 0)` with `degrees = dict(G.degree())`. */
  function DegreeOf(g: DiGraph, n: string): nat
  {
    if HasNode(g, n) then Degree(g, n) else 0
  }

  /** The first node of `ns` whose degree exceeds `threshold`. */
  function FirstHub(ns: seq<string>, g: DiGraph, threshold: int): (r: Option<nat>)
    ensures r.None? <==> forall i :: 0 <= i < |ns| ==> DegreeOf(g, ns[i]) <= threshold
    ensures r.Some? ==> r.value < |ns| && DegreeOf(g, ns[r.value]) > threshold
                        && forall j :: 0 <= j < r.value ==> DegreeOf(g, ns[j]) <= threshold
  {
    if ns == [] then None
    else if DegreeOf(g, ns[0]) > threshold then Some(0)
    else
      match FirstHub(ns[1..], g, threshold)
      case None => None
      case Some(k) => Some(k + 1)
  }

  /**
   * Rule 1, `check_hub_suppression`: a path of three or more nodes fails
   * iff one of its intermediate nodes has degree above the threshold;
   * shorter paths always pass.
   */
  function HubRule(h: Hypothesis, ctx: Context): (r: Verdict)
    ensures |h.path| <= 2 ==> r == Pass
    ensures r.Fail? <==> |h.path| > 2 && exists i :: 0 < i < |h.path| - 1 && DegreeOf(ctx.graph, h.path[i]) > ctx.config.hubDegreeThreshold
  {
    var path := h.path;
    var t := ctx.config.hubDegreeThreshold;
    if |path| > 2 then
      var mid := path[1..|path| - 1];
      assert forall i :: 0 < i < |path| - 1 ==> path[i] == mid[i - 1];
      match FirstHub(mid, ctx.graph, t)
      case None => Pass
      case Some(k) =>
        Fail("Node '" + mid[k] + "' has degree " + IntToString(DegreeOf(ctx.graph, mid[k])) + " > " + IntToString(t))
    else Pass
  }

  /** `ctx.graph.nodes[node].get("type", "concept")`: `None` for a type set to null. */
  function TypeOf(g: DiGraph, n: string): Option<string>
  {
    match NodeType(g, n)
    case Missing => Some("concept")
    case Null => None
    case Str(s) => Some(s)
  }

  /** A graph node whose truthy type, lowercased, is forbidden. */
  predicate Forbidden(g: DiGraph, n: string, forbidden: set<string>)
  {
    HasNode(g, n) && TypeOf(g, n).Some? && TypeOf(g, n).value != "" && Lower(TypeOf(g, n).value) in forbidden
  }

  function FirstForbidden(ns: seq<string>, g: DiGraph, forbidden: set<string>): (r: Option<nat>)
    ensures r.None? <==> forall i :: 0 <= i < |ns| ==> !Forbidden(g, ns[i], forbidden)
    ensures r.Some? ==> r.value < |ns| && Forbidden(g, ns[r.value], forbidden)
                        && forall j :: 0 <= j < r.value ==> !Forbidden(g, ns[j], forbidden)
  {
    if ns == [] then None
    else if Forbidden(g, ns[0], forbidden) then Some(0)
    else
      match FirstForbidden(ns[1..], g, forbidden)
      case None => None
      case Some(k) => Some(k + 1)
  }

  /**
   * Rule 2, `check_role_constraints`: nodes absent from the graph are
   * skipped; the path fails on the first node whose type (default
   * "concept"), lowercased, is forbidden.
   */
  function RoleRule(h: Hypothesis, ctx: Context): (r: Verdict)
    ensures r.Fail? <==> exists i :: 0 <= i < |h.path| && Forbidden(ctx.graph, h.path[i], ctx.config.forbiddenNodeTypes)
  {
    match FirstForbidden(h.path, ctx.graph, ctx.config.forbiddenNodeTypes)
    case None => Pass
    case Some(k) =>
      Fail("Node '" + h.path[k] + "' has forbidden type '" + TypeOf(ctx.graph, h.path[k]).value + "'")
  }

  /** Every predicate, lowercased, is generic. */
  predicate AllGeneric(preds: seq<string>, generic: set<string>)
  {
    forall i :: 0 <= i < |preds| ==> Lower(preds[i]) in generic
  }

  /**
   * Rule 3, `check_predicate_semantics`: an empty predicate list passes;
   * otherwise the rule fails iff every predicate is generic.
   */
  function PredicateRule(h: Hypothesis, ctx: Context): (r: Verdict)
    ensures h.predicates == [] ==> r == Pass
    ensures r.Fail? <==> h.predicates != [] && AllGeneric(h.predicates, ctx.config.genericPredicates)
  {
    if h.predicates == [] then Pass
    else if AllGeneric(h.predicates, ctx.config.genericPredicates) then
      Fail("All predicates are generic: " + ReprList(h.predicates))
    else Pass
  }

  /** Rule 4, `check_evidence_threshold`: fails iff the confidence is below the minimum. */
  function EvidenceRule(h: Hypothesis, ctx: Context): (r: Verdict)
    ensures r.Fail? <==> h.confidence < ctx.config.minConfidence
  {
    if h.confidence < ctx.config.minConfidence then
      Fail("Confidence " + IntToString(h.confidence) + " < " + IntToString(ctx.config.minConfidence))
    else Pass
  }

  /** Rule 5, `check_novelty`: fails iff both endpoints are truthy and a direct edge joins them. */
  function NoveltyRule(h: Hypothesis, ctx: Context): (r: Verdict)
    ensures r.Fail? <==> h.source != "" && h.target != "" && HasEdge(ctx.graph, h.source, h.target)
  {
    if h.source != "" && h.target != "" && HasEdge(ctx.graph, h.source, h.target) then
      Fail("Direct edge exists between '" + h.source + "' and '" + h.target + "'")
    else Pass
  }

  // =====================================================================
  // RULES and the chain
  // =====================================================================

  /** `RULES`, in order. */
  const RuleNames: seq<string> :=
    ["hub_suppression", "role_constraint", "predicate_semantics", EvidenceThreshold, "novelty"]

  const RuleCount: nat := 5

  function ApplyRule(k: nat, h: Hypothesis, ctx: Context): Verdict
    requires k < RuleCount
  {
    if k == 0 then HubRule(h, ctx)
    else if k == 1 then RoleRule(h, ctx)
    else if k == 2 then PredicateRule(h, ctx)
    else if k == 3 then EvidenceRule(h, ctx)
    else NoveltyRule(h, ctx)
  }

  /** The first failing rule from the `k`-th on, with its message. */
  function ChainFrom(h: Hypothesis, ctx: Context, k: nat): (r: Option<(nat, string)>)
    requires k <= RuleCount
    ensures r.None? <==> forall j :: k <= j < RuleCount ==> ApplyRule(j, h, ctx).Pass?
    ensures r.Some? ==> k <= r.value.0 < RuleCount && ApplyRule(r.value.0, h, ctx) == Fail(r.value.1)
                        && forall j :: k <= j < r.value.0 ==> ApplyRule(j, h, ctx).Pass?
    decreases RuleCount - k
  {
    if k == RuleCount then None
    else
      match ApplyRule(k, h, ctx)
      case Fail(m) => Some((k, m))
      case Pass => ChainFrom(h, ctx, k + 1)
  }

  /** The hypothesis after the rule chain has annotated it. */
  function Annotated(h: Hypothesis, ctx: Context): Hypothesis
  {
    match ChainFrom(h, ctx, 0)
    case None => h.(passedFilter := true, filterReason := None)
    case Some((k, m)) => h.(passedFilter := false, filterReason := Some(map[RuleNames[k] := m]))
  }

  /**
   * A hypothesis passes iff every rule passes; `filter_reason` is None iff
   * it passed; a failed one carries exactly one reason, keyed by the first
   * failing rule, all earlier rules having passed; nothing else changes.
   */
  lemma AnnotatedSpec(h: Hypothesis, ctx: Context)
    ensures var a := Annotated(h, ctx);
      && a.(passedFilter := h.passedFilter, filterReason := h.filterReason) == h
      && (a.passedFilter <==> forall j :: 0 <= j < RuleCount ==> ApplyRule(j, h, ctx).Pass?)
      && (a.filterReason.None? <==> a.passedFilter)
      && (!a.passedFilter ==> exists k :: 0 <= k < RuleCount && a.filterReason.value.Keys == {RuleNames[k]}
                                && ApplyRule(k, h, ctx).Fail?
                                && forall j :: 0 <= j < k ==> ApplyRule(j, h, ctx).Pass?)
  {
    var c := ChainFrom(h, ctx, 0);
    if c.Some? {
      var k := c.value.0;
      assert Annotated(h, ctx).filterReason.value.Keys == {RuleNames[k]};
    }
  }

  /** A failed hypothesis has exactly one `filter_reason` key. */
  lemma AnnotatedOneReason(h: Hypothesis, ctx: Context)
    ensures !Annotated(h, ctx).passedFilter ==> |Annotated(h, ctx).filterReason.value.Keys| == 1
  {
    AnnotatedSpec(h, ctx);
  }

  /**
   * `filter_hypotheses` with defaults `defaults`: every hypothesis is
   * returned, in order, annotated by the rule chain over the filtering
   * graph and the merged configuration. The inner loop stops at the first
   * failing rule.
   */
  method FilterWith(hyps: seq<Hypothesis>, sg: SemanticGraph, defaults: Config, overrides: Overrides)
    returns (processed: seq<Hypothesis>)
    ensures |processed| == |hyps|
    ensures forall i :: 0 <= i < |hyps| ==>
              processed[i] == Annotated(hyps[i], Context(FilterGraphOf(sg), Merge(defaults, overrides)))
  {
    var cfg := Merge(defaults, overrides);
    var g := BuildFilterGraph(sg);
    var ctx := Context(g, cfg);
    processed := [];
    for i := 0 to |hyps|
      invariant |processed| == i
      invariant forall j :: 0 <= j < i ==> processed[j] == Annotated(hyps[j], ctx)
    {
      var hyp := AnnotateOne(hyps[i], ctx);
      processed := processed + [hyp];
    }
  }

  /** The body of the loop in `filter_hypotheses`: run the rules until one fails and write the verdict. */
  method AnnotateOne(hyp: Hypothesis, ctx: Context) returns (out: Hypothesis)
    ensures out == Annotated(hyp, ctx)
  {
    var passed := true;
    var reasons: map<string, string> := map[];
    for k := 0 to RuleCount
      invariant passed && reasons == map[]
      invariant ChainFrom(hyp, ctx, 0) == ChainFrom(hyp, ctx, k)
    {
      var v := ApplyRule(k, hyp, ctx);
      if v.Fail? {
        passed := false;
        reasons := reasons[RuleNames[k] := v.message];
        break;
      }
    }
    out := hyp.(passedFilter := passed, filterReason := if !passed then Some(reasons) else None);
  }

  /** `filter_hypotheses` of this module, over `DEFAULT_CONFIG`. */
  method FilterHypotheses(hyps: seq<Hypothesis>, sg: SemanticGraph, overrides: Overrides)
    returns (processed: seq<Hypothesis>)
    ensures |processed| == |hyps|
    ensures forall i :: 0 <= i < |hyps| ==>
              processed[i] == Annotated(hyps[i], Context(FilterGraphOf(sg), Merge(DefaultConfig, overrides)))
  {
    processed := FilterWith(hyps, sg, DefaultConfig, overrides);
  }

  // =====================================================================
  // is_low_confidence_rejection
  // =====================================================================

  /**
   * `is_low_confidence_rejection`: not passed, a non-empty reason dict
   * holding "evidence_threshold", and no other key.
   */
  function IsLowConfidenceRejection(h: Hypothesis): (r: bool)
    ensures r <==> OnlyEvidenceRejected(h)
  {
    if h.passedFilter then false
    else if h.filterReason.None? then false
    else
      var reasons := h.filterReason.value;
      if |reasons| == 0 then false
      else if EvidenceThreshold !in reasons then false
      else
        SingleKey(reasons, EvidenceThreshold);
        |reasons| == 1
  }

  /**
   * After filtering, a hypothesis is a low-confidence rejection iff the
   * hub, role and predicate rules passed and the evidence rule failed.
   */
  lemma LowConfidenceIffEvidenceFirst(h: Hypothesis, ctx: Context)
    ensures IsLowConfidenceRejection(Annotated(h, ctx)) <==>
              (forall j :: 0 <= j < 3 ==> ApplyRule(j, h, ctx).Pass?) && ApplyRule(3, h, ctx).Fail?
  {
    var c := ChainFrom(h, ctx, 0);
    if c.Some? {
      var k := c.value.0;
      assert Annotated(h, ctx).filterReason.value.Keys == {RuleNames[k]};
      assert RuleNames[k] == EvidenceThreshold <==> k == 3;
    }
  }
}
