/**
 * The hypothesis record that path reasoning produces and that filtering,
 * lead selection, the measurements and persistence read. A key that the
 * producer did not write reads as its falsy default ("" for a text,
 * `false` for `passed_filter`, `None` for `filter_reason` and `domain`).
 */
module Hypotheses {
  import opened Common

  datatype Hypothesis = Hypothesis(
    source: string,
    target: string,
    path: seq<string>,
    predicates: seq<string>,
    explanation: string,
    confidence: int,
    mode: string,
    tripleIds: seq<int>,
    sourceIds: seq<int>,
    blockIds: seq<int>,
    passedFilter: bool,
    filterReason: Option<map<string, string>>,
    domain: Option<string>)

  /** Name of the evidence rule, the only rule a "promising" rejection may have failed. */
  const EvidenceThreshold: string := "evidence_threshold"

  /**
   * A hypothesis rejected by the evidence rule alone: not passed, with a
   * non-empty reason dict whose only key is "evidence_threshold".
   */
  predicate OnlyEvidenceRejected(h: Hypothesis)
  {
    && !h.passedFilter
    && h.filterReason.Some?
    && h.filterReason.value.Keys == {EvidenceThreshold}
  }

  /** A dict has exactly one key, `k`, iff its size is 1 and it contains `k`. */
  lemma SingleKey(m: map<string, string>, k: string)
    ensures (|m| == 1 && k in m) <==> m.Keys == {k}
  {
    if k in m {
      var rest := m.Keys - {k};
      assert m.Keys == rest + {k};
      assert |m.Keys| == |rest| + 1;
      assert |m| == |m.Keys|;
      if |rest| == 0 { assert rest == {}; }
    }
  }
}
