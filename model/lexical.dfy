/**
 * Lexical repair of layout-induced word splits: adjacent alphabetic tokens
 * are merged, left to right, when the word-frequency score of their
 * concatenation reaches `min_zipf`. The frequency list is a parameter
 * (`zipf`), which may raise; a raised score reads as 0.0.
 */
module Lexical {
  import opened Common

  /** The maximal run of non-whitespace characters at the start of `s`. */
  function Word(s: string): (w: string)
    ensures |w| <= |s| && w == s[..|w|]
    ensures forall i :: 0 <= i < |w| ==> !IsSpaceChar(w[i])
    ensures |w| < |s| ==> IsSpaceChar(s[|w|])
  {
    if s == [] || IsSpaceChar(s[0]) then [] else [s[0]] + Word(s[1..])
  }

  /** `re.findall(r"\S+", s)`: the whitespace-separated tokens, in order. */
  function Tokens(s: string): (r: seq<string>)
    ensures forall k :: 0 <= k < |r| ==> r[k] != [] && forall i :: 0 <= i < |r[k]| ==> !IsSpaceChar(r[k][i])
    decreases |s|
  {
    if s == [] then []
    else if IsSpaceChar(s[0]) then Tokens(s[1..])
    else var w := Word(s); [w] + Tokens(s[|w|..])
  }

  /** The tokens hold exactly the non-whitespace characters of the text. */
  lemma {:induction false} TokensConcat(s: string)
    ensures Concat(Tokens(s)) == NonSpace(s)
    decreases |s|
  {
    if s != [] {
      if IsSpaceChar(s[0]) {
        TokensConcat(s[1..]);
      } else {
        var w := Word(s);
        TokensConcat(s[|w|..]);
        assert ([w] + Tokens(s[|w|..]))[1..] == Tokens(s[|w|..]);
        assert s == w + s[|w|..];
        NonSpaceAppend(w, s[|w|..]);
        NoSpaceNonSpace(w);
      }
    }
  }

  lemma {:induction false} NoSpaceNonSpace(w: string)
    requires forall i :: 0 <= i < |w| ==> !IsSpaceChar(w[i])
    ensures NonSpace(w) == w
  {
    if w != [] {
      NoSpaceNonSpace(w[1..]);
    }
  }

  /** `str.isalpha()`: non-empty and every character a letter. */
  predicate IsAlphaToken(t: string)
  {
    t != [] && forall i :: 0 <= i < |t| ==> IsAlphaChar(t[i])
  }

  /** The score of a word, 0.0 when the frequency lookup raises. */
  function Score(zipf: string -> Outcome<real>, w: string): real
  {
    match zipf(w)
    case Success(v) => v
    case Failure(_) => 0.0
  }

  /** Token `i` and token `i + 1` are merged. */
  predicate Merges(tokens: seq<string>, i: nat, minZipf: real, zipf: string -> Outcome<real>)
    requires i < |tokens|
  {
    i + 1 < |tokens| && IsAlphaToken(tokens[i]) && IsAlphaToken(tokens[i + 1])
    && Score(zipf, tokens[i] + tokens[i + 1]) >= minZipf
  }

  /** The output tokens of the scan from token `i` on. */
  function RepairFrom(tokens: seq<string>, i: nat, minZipf: real, zipf: string -> Outcome<real>): seq<string>
    requires i <= |tokens|
    decreases |tokens| - i
  {
    if i == |tokens| then []
    else if Merges(tokens, i, minZipf, zipf) then [tokens[i] + tokens[i + 1]] + RepairFrom(tokens, i + 2, minZipf, zipf)
    else [tokens[i]] + RepairFrom(tokens, i + 1, minZipf, zipf)
  }

  /**
   * The scan loses and adds no character, and every output token stands
   * for one or two input tokens.
   */
  lemma {:induction false} RepairFromSpec(tokens: seq<string>, i: nat, minZipf: real, zipf: string -> Outcome<real>)
    requires i <= |tokens|
    ensures var out := RepairFrom(tokens, i, minZipf, zipf);
      && Concat(out) == Concat(tokens[i..])
      && |out| <= |tokens| - i <= 2 * |out|
    decreases |tokens| - i
  {
    if i == |tokens| {
      assert tokens[i..] == [];
    } else {
      assert tokens[i..][1..] == tokens[i + 1..];
      if Merges(tokens, i, minZipf, zipf) {
        RepairFromSpec(tokens, i + 2, minZipf, zipf);
        assert tokens[i + 1..][1..] == tokens[i + 2..];
        assert Concat(tokens[i..]) == tokens[i] + (tokens[i + 1] + Concat(tokens[i + 2..]));
      } else {
        RepairFromSpec(tokens, i + 1, minZipf, zipf);
      }
      var out := RepairFrom(tokens, i, minZipf, zipf);
      assert out[1..] == if Merges(tokens, i, minZipf, zipf) then RepairFrom(tokens, i + 2, minZipf, zipf)
                         else RepairFrom(tokens, i + 1, minZipf, zipf);
    }
  }

  /**
   * `lexical_repair`. `available` is whether wordfreq could be imported;
   * the empty string is the falsy input.
   */
  method LexicalRepair(text: string, minZipf: real, available: bool, zipf: string -> Outcome<real>)
    returns (r: string)
    ensures text == [] || !available || Tokens(text) == [] ==> r == text
    ensures text != [] && available && Tokens(text) != [] ==>
      r == Join(RepairFrom(Tokens(text), 0, minZipf, zipf), " ")
  {
    if text == [] || !available {
      return text;
    }
    var tokens := Tokens(text);
    if tokens == [] {
      return text;
    }
    var outTokens: seq<string> := [];
    var i := 0;
    var n := |tokens|;
    while i < n
      invariant 0 <= i <= n
      invariant outTokens + RepairFrom(tokens, i, minZipf, zipf) == RepairFrom(tokens, 0, minZipf, zipf)
      decreases n - i
    {
      var tok := tokens[i];
      if i + 1 < n && IsAlphaToken(tok) {
        var nxt := tokens[i + 1];
        if IsAlphaToken(nxt) {
          var merged := tok + nxt;
          var score := Score(zipf, merged);
          if score >= minZipf {
            assert outTokens + RepairFrom(tokens, i, minZipf, zipf)
                == (outTokens + [merged]) + RepairFrom(tokens, i + 2, minZipf, zipf);
            outTokens := outTokens + [merged];
            i := i + 2;
            continue;
          }
        }
      }
      assert outTokens + RepairFrom(tokens, i, minZipf, zipf)
          == (outTokens + [tok]) + RepairFrom(tokens, i + 1, minZipf, zipf);
      outTokens := outTokens + [tok];
      i := i + 1;
    }
    assert outTokens + [] == outTokens;
    r := Join(outTokens, " ");
  }

  /**
   * What the repair keeps: the output words, put together, are the
   * non-whitespace characters of the input, and there are between half
   * as many and as many of them as input tokens.
   */
  lemma RepairSpec(text: string, minZipf: real, zipf: string -> Outcome<real>)
    ensures var out := RepairFrom(Tokens(text), 0, minZipf, zipf);
      && Concat(out) == NonSpace(text)
      && |out| <= |Tokens(text)| <= 2 * |out|
  {
    RepairFromSpec(Tokens(text), 0, minZipf, zipf);
    assert Tokens(text)[0..] == Tokens(text);
    TokensConcat(text);
  }
}
