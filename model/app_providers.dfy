/**
 * The app's rule-based decision provider: a shorter ordered table whose
 * default outcome is asking the user, and an LLM provider that falls back
 * to asking the user.
 */
module AppDecisionProviders {
  import opened Common
  import opened DecisionSpace
  import opened DecisionProviders

  /** The thresholds of the app's `DecisionConfig` the rules consult. */
  datatype AppConfig = AppConfig(
    minimumHypotheses: int,
    highConfidence: real,
    lowDiversityPairs: int,
    diversityRatio: real,
    sparseDensity: real)

  /** The defaults of `DecisionConfig()` when no environment variable overrides them. */
  const AppDefaults: AppConfig := AppConfig(1, 0.7, 2, 0.3, 0.05)

  predicate TooFew(m: Measurements, c: AppConfig)
  {
    Get(m.totalHypothesisCount, 0) < c.minimumHypotheses
  }

  predicate NonePassed(m: Measurements)
  {
    Get(m.passedHypothesisCount, 0) == 0
  }

  predicate DominantAndHigh(m: Measurements, c: AppConfig)
  {
    Get(m.isDominantClear, false) && Get(m.maxNormalizedConfidence, 0.0) >= c.highConfidence
  }

  predicate LowDiversity(m: Measurements, c: AppConfig)
  {
    Get(m.uniqueSourceTargetPairs, 0) < c.lowDiversityPairs || Get(m.diversityScore, 0.0) < c.diversityRatio
  }

  predicate Sparse(m: Measurements, c: AppConfig)
  {
    Get(m.graphDensity, 0.0) < c.sparseDensity
  }

  /** `RuleBasedDecisionProvider.decide` of the app. */
  function AppDecide(m: Measurements, c: AppConfig): (r: Decision)
    ensures r in {InsufficientSignal, HaltConfident, AskDomainExpert, FetchMoreLiterature, AskUserInput}
  {
    if TooFew(m, c) then InsufficientSignal
    else if NonePassed(m) then InsufficientSignal
    else if DominantAndHigh(m, c) then HaltConfident
    else if LowDiversity(m, c) then AskDomainExpert
    else if Sparse(m, c) then FetchMoreLiterature
    else AskUserInput
  }

  /** Each decision of the table by the conditions that produce it. */
  lemma AppDecideSpec(m: Measurements, c: AppConfig)
    ensures var r := AppDecide(m, c);
      && (r == InsufficientSignal <==> TooFew(m, c) || NonePassed(m))
      && (r == HaltConfident <==> !TooFew(m, c) && !NonePassed(m) && DominantAndHigh(m, c))
      && (r == AskDomainExpert <==> !TooFew(m, c) && !NonePassed(m) && !DominantAndHigh(m, c) && LowDiversity(m, c))
      && (r == FetchMoreLiterature <==>
            !TooFew(m, c) && !NonePassed(m) && !DominantAndHigh(m, c) && !LowDiversity(m, c) && Sparse(m, c))
      && (r == AskUserInput <==>
            !TooFew(m, c) && !NonePassed(m) && !DominantAndHigh(m, c) && !LowDiversity(m, c) && !Sparse(m, c))
  {
  }

  /** Low diversity is reported to a domain expert even when the graph is also sparse. */
  lemma DiversityBeforeDensity(m: Measurements, c: AppConfig)
    requires !TooFew(m, c) && !NonePassed(m) && !DominantAndHigh(m, c)
    requires LowDiversity(m, c) && Sparse(m, c)
    ensures AppDecide(m, c) == AskDomainExpert
  {
  }

  /** The app's LLM provider falls back to ASK_USER_INPUT. */
  function AppLlmDecide(reply: Outcome<string>, order: seq<string>): (r: Decision)
    requires EnumeratesLabels(order)
    ensures r != AskUserInput ==> reply.Success? && Contains(Lower(Strip(reply.value)), Value(r))
    ensures reply.Failure? ==> r == AskUserInput
  {
    ParseReply(reply, order, AskUserInput)
  }
}
