/**
 * The back end's node classification for graph sanitization: a node is
 * noise when it is not a non-blank string, when its stripped lowercased
 * text is an exact removal word, or when a removal pattern matches it;
 * every other node is a concept. The removal rules come from configuration
 * and are a parameter; a compiled pattern is the test `pattern.match(n)`
 * (case-insensitive) performs.
 */
module NodeRules {
  import opened Common
  import opened GraphTypes

  datatype RemovalRules = RemovalRules(exact: set<string>, patterns: seq<string -> bool>)

  /** `_load_rules`: exact words lowercased, patterns that did not compile dropped. */
  function LoadRules(words: seq<string>, compiled: seq<Option<string -> bool>>): (r: RemovalRules)
    ensures forall w :: w in r.exact <==> exists i :: 0 <= i < |words| && w == Lower(words[i])
    ensures |r.patterns| <= |compiled|
  {
    RemovalRules(set i | 0 <= i < |words| :: Lower(words[i]), Compiled(compiled))
  }

  function Compiled(ps: seq<Option<string -> bool>>): (r: seq<string -> bool>)
    ensures |r| <= |ps|
  {
    if ps == [] then []
    else Compiled(ps[..|ps| - 1]) + (if ps[|ps| - 1].Some? then [ps[|ps| - 1].value] else [])
  }

  /** The rules used when loading the configuration fails. */
  const NoRules := RemovalRules({}, [])

  /** The pattern loop: some pattern matches `n`. */
  predicate AnyMatch(ps: seq<string -> bool>, n: string)
  {
    ps != [] && (ps[0](n) || AnyMatch(ps[1..], n))
  }

  lemma {:induction false} AnyMatchSpec(ps: seq<string -> bool>, n: string)
    ensures AnyMatch(ps, n) <==> exists i :: 0 <= i < |ps| && ps[i](n)
  {
    if ps != [] {
      AnyMatchSpec(ps[1..], n);
      if AnyMatch(ps[1..], n) {
        var i :| 0 <= i < |ps[1..]| && ps[1..][i](n);
        assert ps[i + 1](n);
      }
      if !ps[0](n) && exists i :: 0 <= i < |ps| && ps[i](n) {
        var i :| 0 <= i < |ps| && ps[i](n);
        assert ps[1..][i - 1](n);
      }
    }
  }

  /** `classify_node`; `None` stands for a node that is not a string. */
  function Classify(rules: RemovalRules, node: Option<string>): (r: NodeClass)
    ensures r == Noise || r == Concept
    ensures node.None? || node.value == "" ==> r == Noise
  {
    if node.None? || node.value == "" then Noise
    else
      var n := Strip(node.value);
      if n == "" then Noise
      else if Lower(n) in rules.exact then Noise
      else if AnyMatch(rules.patterns, n) then Noise
      else Concept
  }

  /**
   * A node is a concept iff it is a non-blank string whose stripped text
   * is neither an exact removal word (ignoring case) nor matched by a
   * removal pattern.
   */
  lemma ClassifySpec(rules: RemovalRules, s: string)
    ensures Classify(rules, Some(s)) == Concept <==>
      && !IsBlank(s)
      && Lower(Strip(s)) !in rules.exact
      && forall i :: 0 <= i < |rules.patterns| ==> !rules.patterns[i](Strip(s))
  {
    StripBlank(s);
    AnyMatchSpec(rules.patterns, Strip(s));
  }

  /** Surrounding whitespace never changes a node's class. */
  lemma StripInvariant(rules: RemovalRules, s: string)
    ensures Classify(rules, Some(s)) == Classify(rules, Some(Strip(s)))
  {
    StripTrimmed(Strip(s));
  }

  /** Without rules (a configuration that failed to load) only blank nodes are noise. */
  lemma NoRulesKeepsNonBlank(s: string)
    ensures Classify(NoRules, Some(s)) == Concept <==> !IsBlank(s)
  {
    StripBlank(s);
  }

  /** More removal words or patterns never turn noise back into a concept. */
  lemma {:induction false} MoreRulesMoreNoise(exact: set<string>, ps: seq<string -> bool>,
                                              moreExact: set<string>, morePs: seq<string -> bool>, node: Option<string>)
    ensures Classify(RemovalRules(exact, ps), node) == Noise ==>
      Classify(RemovalRules(exact + moreExact, ps + morePs), node) == Noise
  {
    if node.Some? && node.value != "" {
      var n := Strip(node.value);
      AnyMatchSpec(ps, n);
      AnyMatchSpec(ps + morePs, n);
      if AnyMatch(ps, n) {
        var i :| 0 <= i < |ps| && ps[i](n);
        assert (ps + morePs)[i](n);
      }
    }
  }

  // ---------------------------------------------------------------------
  // Impactful nodes
  // ---------------------------------------------------------------------

  predicate HasDigit(s: string)
  {
    exists i :: 0 <= i < |s| && IsDigitChar(s[i])
  }

  /** `text.isupper() and text.isalpha()`: only uppercase letters. */
  predicate IsAcronym(s: string)
  {
    s != [] && forall i :: 0 <= i < |s| ==> IsUpperChar(s[i])
  }

  /** `is_impactful_node`. */
  function IsImpactful(text: string): (r: bool)
    ensures r ==> |text| >= 2
  {
    if |text| < 2 then false
    else if IsAcronym(text) then true
    else if ContainsChar(text, ' ') then true
    else if IsUpperChar(text[0]) then true
    else if ContainsChar(text, '-') || HasDigit(text) then true
    else false
  }

  /**
   * The acronym rule adds nothing: a text of two or more characters is
   * impactful iff it starts with a capital or contains a space, a hyphen
   * or a digit.
   */
  lemma ImpactfulSpec(text: string)
    ensures IsImpactful(text) <==>
      |text| >= 2 && (IsUpperChar(text[0]) || ContainsChar(text, ' ') || ContainsChar(text, '-') || HasDigit(text))
  {
  }
}
