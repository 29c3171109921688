/**
 * The decision controller: the provider wiring chosen by name, one call of
 * the primary provider, the fallback protocol when it is undecided, and
 * the one decision record persisted per call.
 */
module DecisionControl {
  import opened Common
  import opened DecisionSpace
  import opened DecisionProviders

  datatype ProviderKind = RuleBased | Llm

  /** `(primary_provider, fallback_provider)` for a provider name; `None` is the `ValueError`. */
  function Wiring(name: string): (r: Option<(ProviderKind, Option<ProviderKind>)>)
    ensures r.None? <==> name !in {"rule_based", "hybrid", "llm"}
    ensures r.Some? && r.value.1.Some? ==> r.value.1.value != r.value.0
  {
    if name == "rule_based" then Some((RuleBased, None))
    else if name == "hybrid" then Some((RuleBased, Some(Llm)))
    else if name == "llm" then Some((Llm, Some(RuleBased)))
    else None
  }

  /** The dict `decide` returns and persists. */
  datatype DecisionResult = DecisionResult(
    decisionLabel: string,
    providerUsed: string,
    measurements: Measurements,
    fallbackUsed: bool,
    fallbackReason: Option<string>)

  /** A persisted `DecisionResult` row. */
  datatype Record = Record(jobId: int, result: DecisionResult)

  /**
   * The result once the primary provider has answered `primary`: the
   * fallback runs only when the primary is undecided and a fallback is
   * wired; `fallbackOutcome` is what the fallback returns or raises.
   */
  function Resolve(name: string, m: Measurements, primary: Decision, hasFallback: bool,
                   fallbackOutcome: Outcome<Decision>): DecisionResult
  {
    if primary == Undecided && hasFallback then
      match fallbackOutcome
      case Success(d) => DecisionResult(Value(d), "fallback", m, true, Some("Primary returned UNDECIDED"))
      case Failure(e) => DecisionResult(Value(Undecided), name, m, false, Some(e))
    else DecisionResult(Value(primary), name, m, false, None)
  }

  /** The fallback protocol, stated over the result. */
  lemma ResolveSpec(name: string, m: Measurements, primary: Decision, hasFallback: bool,
                    fallbackOutcome: Outcome<Decision>)
    ensures var r := Resolve(name, m, primary, hasFallback, fallbackOutcome);
      && r.measurements == m
      && (exists d :: r.decisionLabel == Value(d))
      && (r.fallbackUsed <==> primary == Undecided && hasFallback && fallbackOutcome.Success?)
      && (r.fallbackUsed ==> r.providerUsed == "fallback" && r.decisionLabel == Value(fallbackOutcome.value)
                             && r.fallbackReason == Some("Primary returned UNDECIDED"))
      && (primary == Undecided && hasFallback && fallbackOutcome.Failure? ==>
            r.decisionLabel == "undecided" && r.providerUsed == name && r.fallbackReason == Some(fallbackOutcome.error))
      && (primary != Undecided || !hasFallback ==>
            r.decisionLabel == Value(primary) && r.providerUsed == name && r.fallbackReason == None)
  {
    var r := Resolve(name, m, primary, hasFallback, fallbackOutcome);
    if primary == Undecided && hasFallback && fallbackOutcome.Success? {
      assert r.decisionLabel == Value(fallbackOutcome.value);
    } else if primary == Undecided && hasFallback {
      assert r.decisionLabel == Value(Undecided);
    } else {
      assert r.decisionLabel == Value(primary);
    }
  }

  class DecisionController {
    var providerName: string
    var primaryProvider: ProviderKind
    var fallbackProvider: Option<ProviderKind>
    /** The `DecisionResult` table. */
    var records: seq<Record>

    /** `DecisionController(provider_name)` for a known name. */
    constructor (name: string, table: seq<Record>)
      requires Wiring(name).Some?
      ensures providerName == name
      ensures (primaryProvider, fallbackProvider) == Wiring(name).value
      ensures records == table
    {
      providerName := name;
      var w := Wiring(name).value;
      primaryProvider := w.0;
      fallbackProvider := w.1;
      records := table;
    }

    /** What a provider of kind `k` answers: the rule-based or the LLM outcome. */
    static function Answer(k: ProviderKind, ruleOutcome: Outcome<Decision>, llmOutcome: Outcome<Decision>): Outcome<Decision>
    {
      if k == RuleBased then ruleOutcome else llmOutcome
    }

    /**
     * `decide` once the measurements `m` are computed. `ruleOutcome` and
     * `llmOutcome` are what the two providers return or raise for them.
     * An exception of the primary provider propagates and nothing is
     * persisted; otherwise exactly one record is appended.
     */
    method Decide(jobId: int, m: Measurements, ruleOutcome: Outcome<Decision>, llmOutcome: Outcome<Decision>)
      returns (r: Outcome<DecisionResult>)
      modifies this
      ensures providerName == old(providerName) && primaryProvider == old(primaryProvider)
      ensures fallbackProvider == old(fallbackProvider)
      ensures r.Failure? <==> Answer(primaryProvider, ruleOutcome, llmOutcome).Failure?
      ensures r.Failure? ==> records == old(records)
      ensures r.Success? ==>
        var fb := fallbackProvider;
        && r.value == Resolve(providerName, m, Answer(primaryProvider, ruleOutcome, llmOutcome).value, fb.Some?,
                              if fb.Some? then Answer(fb.value, ruleOutcome, llmOutcome) else Failure(""))
        && records == old(records) + [Record(jobId, r.value)]
    {
      var primary := Answer(primaryProvider, ruleOutcome, llmOutcome);
      if primary.Failure? {
        return Failure(primary.error);
      }
      var decision := primary.value;
      var fallbackUsed := false;
      var fallbackReason: Option<string> := None;
      var providerUsed := providerName;
      if decision == Undecided && fallbackProvider.Some? {
        var fallbackDecision := Answer(fallbackProvider.value, ruleOutcome, llmOutcome);
        if fallbackDecision.Success? {
          decision := fallbackDecision.value;
          fallbackUsed := true;
          fallbackReason := Some("Primary returned UNDECIDED");
          providerUsed := "fallback";
        } else {
          fallbackReason := Some(fallbackDecision.error);
        }
      }
      var result := DecisionResult(Value(decision), providerUsed, m, fallbackUsed, fallbackReason);
      records := records + [Record(jobId, result)];
      r := Success(result);
    }
  }

  /** `DecisionController(provider_name)`: `None` is the `ValueError` for an unknown name. */
  method NewController(name: string, table: seq<Record>) returns (c: Option<DecisionController>)
    ensures c.None? <==> Wiring(name).None?
    ensures c.Some? ==>
      && fresh(c.value) && c.value.providerName == name && c.value.records == table
      && (c.value.primaryProvider, c.value.fallbackProvider) == Wiring(name).value
  {
    if Wiring(name).None? {
      return None;
    }
    var ctl := new DecisionController(name, table);
    c := Some(ctl);
  }
}
