/**
 * Domain resolution for provider selection: a hypothesis's keywords are
 * scored against each configured domain's keyword list, the best domain is
 * taken when its score reaches the deterministic threshold, and otherwise a
 * language model is asked to name one of the configured domains.
 *
 * The configuration read from the environment is the parameter `Config`
 * (its defaults are `DefaultConfig`); the language model's reply, or its
 * absence or failure, is the parameter `LlmReply`.
 */
module DomainResolver {
  import opened Common
  import Lexical

  /** The keys of a hypothesis dict the resolver reads; `path` is `None` when absent or not a list. */
  datatype Hypothesis = Hypothesis(source: Option<string>, target: Option<string>,
                                   path: Option<seq<string>>, explanation: Option<string>)

  /** `DomainResolverConfig` */
  datatype Config = Config(deterministicThreshold: real, llmThreshold: real,
                           labels: seq<string>, domainKeywords: map<string, seq<string>>)

  /** The configuration with no environment overrides. */
  const DefaultConfig := Config(0.7, 0.6,
    ["biomedical", "computer_science", "physics", "chemistry", "mathematics", "engineering"], map[])

  /** What `llm_client.invoke` gave: no client at all, an exception, or a reply (a `str` or another object's `str()`). */
  datatype LlmReply = NoClient | Raised | Reply(text: string, isString: bool)

  // ---------------------------------------------------------------------
  // Keywords (`get_hypothesis_keywords`)
  // ---------------------------------------------------------------------

  /** The lowercased value, as a one-element list, when the key is present. */
  function LowerIfPresent(o: Option<string>): (r: seq<string>)
  {
    if o.Some? then [Lower(o.value)] else []
  }

  /** The first 20 whitespace-separated words of the lowercased explanation. */
  function ExplanationWords(o: Option<string>): (r: seq<string>)
  {
    if o.Some? then
      var ws := Lexical.Tokens(Lower(o.value));
      ws[..Min(20, |ws|)]
    else []
  }

  /** The keywords: source, target, path nodes, then explanation words, all lowercased. */
  function Keywords(h: Hypothesis): seq<string>
  {
    LowerIfPresent(h.source) + LowerIfPresent(h.target)
    + (if h.path.Some? then LowerAll(h.path.value) else []) + ExplanationWords(h.explanation)
  }

  /** `get_hypothesis_keywords` */
  method GetHypothesisKeywords(h: Hypothesis) returns (keywords: seq<string>)
    ensures keywords == Keywords(h)
  {
    keywords := [];
    if h.source.Some? {
      keywords := keywords + [Lower(h.source.value)];
    }
    if h.target.Some? {
      keywords := keywords + [Lower(h.target.value)];
    }
    assert keywords == LowerIfPresent(h.source) + LowerIfPresent(h.target);
    if h.path.Some? {
      keywords := AppendLowered(keywords, h.path.value);
    }
    keywords := keywords + ExplanationWords(h.explanation);
  }

  /** The path loop: each node, lowercased, appended in order. */
  method AppendLowered(keywords: seq<string>, nodes: seq<string>) returns (r: seq<string>)
    ensures r == keywords + LowerAll(nodes)
  {
    r := keywords;
    var i := 0;
    while i < |nodes|
      invariant 0 <= i <= |nodes|
      invariant r == keywords + LowerAll(nodes[..i])
    {
      assert LowerAll(nodes[..i + 1]) == LowerAll(nodes[..i]) + [Lower(nodes[i])];
      r := r + [Lower(nodes[i])];
      i := i + 1;
    }
    assert nodes[..|nodes|] == nodes;
  }

  /**
   * One keyword per present source and target, one per path node and at
   * most 20 from the explanation, and none exactly when nothing of these
   * is present.
   */
  lemma KeywordsCount(h: Hypothesis)
    ensures var n := (if h.source.Some? then 1 else 0) + (if h.target.Some? then 1 else 0)
      + (if h.path.Some? then |h.path.value| else 0);
      n <= |Keywords(h)| <= n + 20
    ensures Keywords(h) == [] <==>
      h.source.None? && h.target.None? && (h.path.None? || h.path.value == [])
      && (h.explanation.None? || Lexical.Tokens(Lower(h.explanation.value)) == [])
  {
  }

  /** Every keyword is in lower case. */
  lemma KeywordsLower(h: Hypothesis)
    ensures forall k :: 0 <= k < |Keywords(h)| ==> Lower(Keywords(h)[k]) == Keywords(h)[k]
  {
    var a := LowerIfPresent(h.source) + LowerIfPresent(h.target);
    var b := if h.path.Some? then LowerAll(h.path.value) else [];
    var e := ExplanationWords(h.explanation);
    assert Keywords(h) == (a + b) + e;
    forall k | 0 <= k < |a|
      ensures Lower(a[k]) == a[k]
    {
      if h.source.Some? && k == 0 {
        LowerIdempotent(h.source.value);
      } else {
        LowerIdempotent(h.target.value);
      }
    }
    forall k | 0 <= k < |b|
      ensures Lower(b[k]) == b[k]
    {
      LowerIdempotent(h.path.value[k]);
    }
    forall k | 0 <= k < |e|
      ensures Lower(e[k]) == e[k]
    {
      var ws := Lexical.Tokens(Lower(h.explanation.value));
      LowerIdempotent(h.explanation.value);
      ExplanationWordLower(ws[k], Lower(h.explanation.value), ws, k);
    }
    AllLowerConcat(a, b, e);
  }

  /** Three lists of lowercase strings join into one. */
  lemma AllLowerConcat(a: seq<string>, b: seq<string>, e: seq<string>)
    requires forall k :: 0 <= k < |a| ==> Lower(a[k]) == a[k]
    requires forall k :: 0 <= k < |b| ==> Lower(b[k]) == b[k]
    requires forall k :: 0 <= k < |e| ==> Lower(e[k]) == e[k]
    ensures forall k :: 0 <= k < |(a + b) + e| ==> Lower(((a + b) + e)[k]) == ((a + b) + e)[k]
  {
  }

  /** A word of a lowercased text is itself in lower case. */
  lemma ExplanationWordLower(w: string, text: string, ws: seq<string>, j: nat)
    requires Lower(text) == text && ws == Lexical.Tokens(text) && j < |ws| && w == ws[j]
    ensures Lower(w) == w
  {
    Lexical.TokensConcat(text);
    NonSpaceLower(text);
    ConcatLower(ws, j);
  }

  /** The words of a text whose non-space part is in lower case are in lower case. */
  lemma {:induction false} ConcatLower(ws: seq<string>, j: nat)
    requires j < |ws| && Lower(Concat(ws)) == Concat(ws)
    ensures Lower(ws[j]) == ws[j]
  {
    ConcatCons(ws[0], ws[1..]);
    assert ws == [ws[0]] + ws[1..];
    LowerAppend(ws[0], Concat(ws[1..]));
    LowerSplit(ws[0], Concat(ws[1..]));
    if j > 0 {
      ConcatLower(ws[1..], j - 1);
    }
  }

  /** Each part of a string that `lower()` leaves alone is left alone. */
  lemma LowerSplit(a: string, b: string)
    requires Lower(a + b) == a + b
    ensures Lower(a) == a && Lower(b) == b
  {
    LowerAppend(a, b);
    assert Lower(a) == (a + b)[..|a|];
    assert Lower(b) == (a + b)[|a|..];
  }

  /** Dropping whitespace from a lowercased text keeps it lowercased. */
  lemma {:induction false} NonSpaceLower(s: string)
    requires Lower(s) == s
    ensures Lower(NonSpace(s)) == NonSpace(s)
  {
    if s != [] {
      assert s == [s[0]] + s[1..];
      LowerSplit([s[0]], s[1..]);
      NonSpaceLower(s[1..]);
      NonSpaceAppend([s[0]], s[1..]);
      if IsSpaceChar(s[0]) {
        NonSpaceBlank([s[0]]);
        assert NonSpace(s) == NonSpace(s[1..]);
      } else {
        assert NonSpace([s[0]]) == [s[0]];
        LowerAppend([s[0]], NonSpace(s[1..]));
      }
    }
  }

  // ---------------------------------------------------------------------
  // Scoring (`score_domain_match`)
  // ---------------------------------------------------------------------

  /** `domain_keywords.get(domain, [])` */
  function DomainKw(domainKeywords: map<string, seq<string>>, domain: string): seq<string>
  {
    if domain in domainKeywords then domainKeywords[domain] else []
  }

  /** The domain keywords found, ignoring case, inside one hypothesis keyword. */
  function HitsIn(kw: string, domainKw: seq<string>): (n: nat)
    ensures n <= |domainKw|
  {
    if domainKw == [] then 0
    else
      var last := domainKw[|domainKw| - 1];
      HitsIn(kw, domainKw[..|domainKw| - 1]) + (if Contains(Lower(kw), Lower(last)) then 1 else 0)
  }

  /** The matching (keyword, domain keyword) pairs. */
  function Matches(keywords: seq<string>, domainKw: seq<string>): (n: nat)
    ensures n <= |keywords| * |domainKw|
  {
    if keywords == [] then 0
    else Matches(keywords[..|keywords| - 1], domainKw) + HitsIn(keywords[|keywords| - 1], domainKw)
  }

  /** The score of one domain's keyword list. */
  function Score(keywords: seq<string>, domainKw: seq<string>): real
  {
    if domainKw == [] then 0.0
    else
      var maxMatches := |keywords| * |domainKw|;
      if maxMatches > 0 then MinReal(1.0, Matches(keywords, domainKw) as real / maxMatches as real)
      else 0.0
  }

  /**
   * A score lies in [0, 1]; it is 0 with no keywords on either side, and
   * otherwise the fraction of keyword pairs that match, so the cap at 1.0
   * never takes effect; it is 1.0 exactly when every pair matches.
   */
  lemma ScoreSpec(keywords: seq<string>, domainKw: seq<string>)
    ensures 0.0 <= Score(keywords, domainKw) <= 1.0
    ensures keywords == [] || domainKw == [] ==> Score(keywords, domainKw) == 0.0
    ensures keywords != [] && domainKw != [] ==>
      Score(keywords, domainKw) == Matches(keywords, domainKw) as real / (|keywords| * |domainKw|) as real
    ensures Score(keywords, domainKw) == 1.0 <==>
      keywords != [] && domainKw != [] && Matches(keywords, domainKw) == |keywords| * |domainKw|
  {
    if keywords != [] && domainKw != [] {
      var m, t := Matches(keywords, domainKw), |keywords| * |domainKw|;
      PositiveProduct(|keywords|, |domainKw|);
      RatioUnit(m, t);
      RatioOne(m, t);
    }
  }

  lemma PositiveProduct(a: nat, b: nat)
    requires a >= 1 && b >= 1
    ensures a * b >= 1
  {
  }

  /** A fraction of a positive whole is 1.0 exactly when it is the whole. */
  lemma RatioOne(m: nat, t: nat)
    requires 0 < t
    ensures m as real / t as real == 1.0 <==> m == t
  {
    if m as real / t as real == 1.0 {
      assert m as real == (m as real / t as real) * t as real;
    }
  }

  /** The score of a domain label. */
  function LabelScore(keywords: seq<string>, domainKeywords: map<string, seq<string>>, domain: string): real
  {
    Score(keywords, DomainKw(domainKeywords, domain))
  }

  /** `score_domain_match`: the scores dict, one entry per label. */
  method ScoreDomainMatch(keywords: seq<string>, labels: seq<string>, domainKeywords: map<string, seq<string>>)
    returns (scores: map<string, real>)
    ensures scores.Keys == set d | d in labels
    ensures forall d :: d in scores ==> scores[d] == LabelScore(keywords, domainKeywords, d)
  {
    scores := map[];
    var i := 0;
    while i < |labels|
      invariant 0 <= i <= |labels|
      invariant scores.Keys == set d | d in labels[..i]
      invariant forall d :: d in scores ==> scores[d] == LabelScore(keywords, domainKeywords, d)
    {
      var domain := labels[i];
      var domainKw := DomainKw(domainKeywords, domain);
      if domainKw == [] {
        scores := scores[domain := 0.0];
      } else {
        var matches := Matches(keywords, domainKw);
        var maxMatches := |keywords| * |domainKw|;
        var score := if maxMatches > 0 then MinReal(1.0, matches as real / maxMatches as real) else 0.0;
        scores := scores[domain := score];
      }
      assert labels[..i + 1] == labels[..i] + [domain];
      i := i + 1;
    }
    assert labels[..|labels|] == labels;
  }

  // ---------------------------------------------------------------------
  // Deterministic resolution
  // ---------------------------------------------------------------------

  /**
   * `max(scores, key=scores.get)`: the index of the first label with the
   * highest score, the dict keeping labels in first-seen order.
   */
  function Best(keywords: seq<string>, domainKeywords: map<string, seq<string>>, labels: seq<string>): (i: nat)
    requires labels != []
    ensures i < |labels|
    ensures forall j :: 0 <= j < |labels| ==>
      LabelScore(keywords, domainKeywords, labels[j]) <= LabelScore(keywords, domainKeywords, labels[i])
    ensures forall j :: 0 <= j < i ==>
      LabelScore(keywords, domainKeywords, labels[j]) < LabelScore(keywords, domainKeywords, labels[i])
  {
    if |labels| == 1 then 0
    else
      var n := |labels| - 1;
      var b := Best(keywords, domainKeywords, labels[..n]);
      if LabelScore(keywords, domainKeywords, labels[n]) > LabelScore(keywords, domainKeywords, labels[..n][b]) then n
      else b
  }

  /** `deterministic_domain_resolution` */
  function Deterministic(h: Hypothesis, cfg: Config): (r: (Option<string>, real))
  {
    var keywords := Keywords(h);
    if keywords == [] || cfg.labels == [] then (None, 0.0)
    else
      var best := cfg.labels[Best(keywords, cfg.domainKeywords, cfg.labels)];
      var score := LabelScore(keywords, cfg.domainKeywords, best);
      if score >= cfg.deterministicThreshold then (Some(best), score) else (None, score)
  }

  /** `deterministic_domain_resolution`, step by step. */
  method DeterministicDomainResolution(h: Hypothesis, cfg: Config) returns (r: (Option<string>, real))
    ensures r == Deterministic(h, cfg)
  {
    var keywords := GetHypothesisKeywords(h);
    if keywords == [] {
      return (None, 0.0);
    }
    var scores := ScoreDomainMatch(keywords, cfg.labels, cfg.domainKeywords);
    if scores == map[] {
      return (None, 0.0);
    }
    assert cfg.labels != [];
    var best := cfg.labels[Best(keywords, cfg.domainKeywords, cfg.labels)];
    var bestScore := scores[best];
    if bestScore >= cfg.deterministicThreshold {
      return (Some(best), bestScore);
    }
    return (None, bestScore);
  }

  /**
   * With no keywords or no labels the result is (None, 0.0). Otherwise the
   * confidence is the highest label score; a domain is named exactly when
   * that score reaches the threshold, and it is the first label with it.
   */
  lemma DeterministicSpec(h: Hypothesis, cfg: Config)
    ensures var r := Deterministic(h, cfg);
      0.0 <= r.1 <= 1.0
      && (Keywords(h) == [] || cfg.labels == [] ==> r == (None, 0.0))
      && (Keywords(h) != [] && cfg.labels != [] ==>
            (exists i :: 0 <= i < |cfg.labels| && r.1 == LabelScore(Keywords(h), cfg.domainKeywords, cfg.labels[i]))
            && (forall d :: d in cfg.labels ==> LabelScore(Keywords(h), cfg.domainKeywords, d) <= r.1)
            && (r.0.Some? <==> r.1 >= cfg.deterministicThreshold))
      && (r.0.Some? ==> exists i :: (0 <= i < |cfg.labels| && r.0.value == cfg.labels[i]
            && forall j :: 0 <= j < i ==> LabelScore(Keywords(h), cfg.domainKeywords, cfg.labels[j]) < r.1))
  {
    var keywords := Keywords(h);
    if keywords != [] && cfg.labels != [] {
      var i := Best(keywords, cfg.domainKeywords, cfg.labels);
      ScoreSpec(keywords, DomainKw(cfg.domainKeywords, cfg.labels[i]));
    }
  }

  /**
   * With no domain keyword lists configured, as by default, every score is
   * 0.0, so a positive threshold is never reached and every hypothesis goes
   * to the language model.
   */
  lemma NoKeywordListsNeverDeterministic(h: Hypothesis, cfg: Config)
    requires cfg.domainKeywords == map[] && cfg.deterministicThreshold > 0.0
    ensures Deterministic(h, cfg).0.None?
  {
  }

  // ---------------------------------------------------------------------
  // Language-model resolution and the combination
  // ---------------------------------------------------------------------

  /** The index of the first label contained, ignoring case, in the reply text, or the count of labels. */
  function FirstContained(labels: seq<string>, text: string): (i: nat)
    ensures i <= |labels|
    ensures i < |labels| ==> Contains(text, Lower(labels[i]))
    ensures forall j :: 0 <= j < i ==> !Contains(text, Lower(labels[j]))
  {
    if labels == [] then 0
    else if Contains(text, Lower(labels[0])) then 0
    else 1 + FirstContained(labels[1..], text)
  }

  /** The reply as the resolver compares it: a string stripped and lowercased, anything else lowercased. */
  function ReplyText(text: string, isString: bool): string
  {
    if isString then Lower(Strip(text)) else Lower(text)
  }

  /** `llm_domain_resolution` */
  function LlmResolution(reply: LlmReply, cfg: Config): (r: (Option<string>, real))
  {
    match reply
    case NoClient => (None, 0.0)
    case Raised => (None, 0.0)
    case Reply(text, isString) =>
      var i := FirstContained(cfg.labels, ReplyText(text, isString));
      if i < |cfg.labels| then (Some(cfg.labels[i]), cfg.llmThreshold) else (None, 0.0)
  }

  /**
   * No client or a failed call gives (None, 0.0); otherwise the first
   * configured label whose lowercase form occurs in the reply is named with
   * the configured LLM confidence, and (None, 0.0) when none occurs.
   */
  lemma LlmResolutionSpec(reply: LlmReply, cfg: Config)
    ensures var r := LlmResolution(reply, cfg);
      (!reply.Reply? ==> r == (None, 0.0))
      && (r.0.Some? <==> reply.Reply? && exists d :: d in cfg.labels && Contains(ReplyText(reply.text, reply.isString), Lower(d)))
      && (r.0.Some? ==> r.1 == cfg.llmThreshold && exists i :: (0 <= i < |cfg.labels| && r.0.value == cfg.labels[i]
            && Contains(ReplyText(reply.text, reply.isString), Lower(cfg.labels[i]))
            && forall j :: 0 <= j < i ==> !Contains(ReplyText(reply.text, reply.isString), Lower(cfg.labels[j]))))
      && (r.0.None? ==> r.1 == 0.0)
  {
    if reply.Reply? {
      var t := ReplyText(reply.text, reply.isString);
      var i := FirstContained(cfg.labels, t);
      if i == |cfg.labels| {
        forall d | d in cfg.labels
          ensures !Contains(t, Lower(d))
        {
          var j :| 0 <= j < |cfg.labels| && cfg.labels[j] == d;
        }
      } else {
        assert cfg.labels[i] in cfg.labels;
      }
    }
  }

  /** `resolve_domain`: the deterministic answer when it names a (non-empty) domain, else the language model's. */
  function Resolve(h: Hypothesis, reply: LlmReply, cfg: Config): (r: (Option<string>, real))
  {
    var d := Deterministic(h, cfg);
    if Truthy(d.0) then d else LlmResolution(reply, cfg)
  }

  /**
   * A deterministic answer makes the reply irrelevant, so the model is not
   * consulted; without one the answer is the model's; and any domain named
   * is a configured label.
   */
  lemma ResolveSpec(h: Hypothesis, reply: LlmReply, other: LlmReply, cfg: Config)
    ensures Truthy(Deterministic(h, cfg).0) ==>
      Resolve(h, reply, cfg) == Deterministic(h, cfg) == Resolve(h, other, cfg)
    ensures !Truthy(Deterministic(h, cfg).0) ==> Resolve(h, reply, cfg) == LlmResolution(reply, cfg)
    ensures Resolve(h, reply, cfg).0.Some? ==> Resolve(h, reply, cfg).0.value in cfg.labels
  {
    DeterministicSpec(h, cfg);
    LlmResolutionSpec(reply, cfg);
  }
}
