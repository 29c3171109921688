/**
 * The older copy of the filtering phase (app/path_reasoning/filtering/logic.py).
 * Its rules, their order and the stop-at-first-failure chain are the same
 * code as the back end's; only `DEFAULT_CONFIG` differs, with a minimum
 * confidence of 10.
 */
module AppHypothesisFiltering {
  import opened Common
  import opened GraphTypes
  import opened Hypotheses
  import opened HypothesisFiltering

  /** `DEFAULT_CONFIG` of the older module. */
  const AppDefaultConfig: Config :=
    Config(50, 10, {"related_to", "mentions", "about"}, {"entity", "metadata", "citation", "url"})

  /**
   * The minimum confidence in force is the caller's, or 10: the key is
   * always present after the defaults are copied, so the context's own
   * fallback of 2 is never reached.
   */
  lemma AppMinConfidence(o: Overrides)
    ensures Merge(AppDefaultConfig, o).minConfidence == if o.minConfidence.Some? then o.minConfidence.value else 10
    ensures o.minConfidence.None? ==> Merge(AppDefaultConfig, o).minConfidence != 2
  {
  }

  /** `filter_hypotheses` of the older module: every hypothesis, in order, annotated by the shared chain. */
  method FilterHypotheses(hyps: seq<Hypothesis>, sg: SemanticGraph, overrides: Overrides)
    returns (processed: seq<Hypothesis>)
    ensures |processed| == |hyps|
    ensures forall i :: 0 <= i < |hyps| ==>
              processed[i] == Annotated(hyps[i], Context(FilterGraphOf(sg), Merge(AppDefaultConfig, overrides)))
  {
    processed := FilterWith(hyps, sg, AppDefaultConfig, overrides);
  }
}
