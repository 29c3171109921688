/**
 * Normalization of extracted text before segmentation: encoding fixes,
 * URL extraction, e-mail removal, optional lexical repair, whitespace
 * normalization and sentence-boundary fixing, in that order, then a final
 * strip. Unicode NFC normalization, the e-mail pattern, the sentence
 * tokenizer and the lexical repair are parameters.
 *
 * As written, the double-quote replacement replaces `"` by itself, and
 * the single-quote line is one `replace` whose first argument is the
 * triple-quoted literal `, "'").replace(`; only the two dashes are
 * replaced by `-` with an effect on ordinary text. The model follows the
 * code.
 */
module IngestNormalizer {
  import opened Common

  // ---------------------------------------------------------------------
  // `str.replace` and `str.split`
  // ---------------------------------------------------------------------

  /** `s.replace(pat, sub)`: non-overlapping occurrences, left to right. */
  function Replace(s: string, pat: string, sub: string): (r: string)
    requires pat != []
    decreases |s|
  {
    if |s| < |pat| then s
    else if s[..|pat|] == pat then sub + Replace(s[|pat|..], pat, sub)
    else [s[0]] + Replace(s[1..], pat, sub)
  }

  /** Replacing a character by a string without it leaves no occurrence of it. */
  lemma {:induction false} ReplaceCharGone(s: string, c: char, sub: string)
    requires c !in sub
    ensures c !in Replace(s, [c], sub)
    decreases |s|
  {
    if |s| >= 1 {
      ReplaceCharGone(s[1..], c, sub);
      assert s[..1] == [c] <==> s[0] == c;
    }
  }

  /** `s.split(c)`: the pieces between occurrences of `c`, empty ones included. */
  function SplitOn(s: string, c: char): (r: seq<string>)
    ensures r != []
    ensures forall k :: 0 <= k < |r| ==> c !in r[k]
    decreases |s|
  {
    if s == [] then [[]]
    else
      var rest := SplitOn(s[1..], c);
      if s[0] == c then [[]] + rest
      else [[s[0]] + rest[0]] + rest[1..]
  }

  /** The separator is the only thing `split` removes. */
  lemma {:induction false} SplitOnJoin(s: string, c: char)
    ensures Join(SplitOn(s, c), [c]) == s
    decreases |s|
  {
    if s != [] {
      var rest := SplitOn(s[1..], c);
      SplitOnJoin(s[1..], c);
      if s[0] == c {
        assert ([[]] + rest)[1..] == rest;
      } else if |rest| == 1 {
        assert Join(rest, [c]) == rest[0];
      } else {
        assert rest == [rest[0]] + rest[1..];
        assert ([[s[0]] + rest[0]] + rest[1..])[1..] == rest[1..];
        assert rest[1..] == rest[1..][0..];
      }
    }
  }

  // ---------------------------------------------------------------------
  // `normalize_encoding`
  // ---------------------------------------------------------------------

  /** `normalize_encoding` after NFC, as the replacements are written. */
  function FixEncoding(text: string): (r: string)
    ensures '—' !in r && '–' !in r
  {
    var t1 := Replace(Replace(text, "\"", "\""), "\"", "\"");
    var t2 := Replace(t1, ", \"'\").replace(", "'");
    var t3 := Replace(t2, "—", "-");
    ReplaceCharGone(t2, '—', "-");
    var t4 := Replace(t3, "–", "-");
    ReplaceCharGone(t3, '–', "-");
    ReplaceKeepsAbsent(t3, '–', '—', "-");
    t4
  }

  /** Replacing `c` by a string without `d` does not bring `d` back. */
  lemma {:induction false} ReplaceKeepsAbsent(s: string, c: char, d: char, sub: string)
    requires d !in s && d !in sub
    ensures d !in Replace(s, [c], sub)
    decreases |s|
  {
    if |s| >= 1 {
      ReplaceKeepsAbsent(s[1..], c, d, sub);
    }
  }

  // ---------------------------------------------------------------------
  // `extract_urls`
  // ---------------------------------------------------------------------

  /** One piece of a text: an ordinary character or a URL match. */
  datatype Piece = Plain(c: char) | Link(url: string)

  /** Where `https?://\S+|www\.\S+` matches at the start of `s`: one of its prefixes followed by at least one non-space. */
  predicate UrlAt(s: string)
  {
    var n := |Run(s)|;
    (StartsWith(s, "http://") && n > 7) || (StartsWith(s, "https://") && n > 8) || (StartsWith(s, "www.") && n > 4)
  }

  /** The maximal run of non-whitespace characters at the start of `s`. */
  function Run(s: string): (w: string)
    ensures |w| <= |s| && w == s[..|w|]
    ensures forall i :: 0 <= i < |w| ==> !IsSpaceChar(w[i])
    ensures |w| < |s| ==> IsSpaceChar(s[|w|])
  {
    if s == [] || IsSpaceChar(s[0]) then [] else [s[0]] + Run(s[1..])
  }

  /** The regex scan: a match takes the whole non-space run, as `\S+` is greedy. */
  function Pieces(s: string): (r: seq<Piece>)
    decreases |s|
  {
    if s == [] then []
    else if UrlAt(s) then [Link(Run(s))] + Pieces(s[|Run(s)|..])
    else [Plain(s[0])] + Pieces(s[1..])
  }

  /** The text the pieces stand for, with each URL written as `link`, or as itself when `link` is `None`. */
  function Render(ps: seq<Piece>, link: Option<string>): string
  {
    if ps == [] then []
    else
      (match ps[0]
       case Plain(c) => [c]
       case Link(u) => if link.Some? then link.value else u)
      + Render(ps[1..], link)
  }

  function Links(ps: seq<Piece>): seq<string>
  {
    if ps == [] then [] else (if ps[0].Link? then [ps[0].url] else []) + Links(ps[1..])
  }

  /**
   * `extract_urls`: the text with every match replaced by "[URL]", and
   * the matches in order.
   */
  function ExtractUrls(text: string): (string, seq<string>)
  {
    var ps := Pieces(text);
    (Render(ps, Some("[URL]")), Links(ps))
  }

  /**
   * The scan splits the text into characters and URLs that give the text
   * back, and every URL it reports is a match of the pattern without
   * whitespace.
   */
  lemma PiecesSpec(s: string)
    ensures Render(Pieces(s), None) == s
    ensures forall k :: 0 <= k < |Links(Pieces(s))| ==> GoodUrl(Links(Pieces(s))[k])
  {
    PiecesRender(s);
    PiecesLinks(s);
  }

  /** A match of the URL pattern without whitespace. */
  predicate GoodUrl(u: string)
  {
    UrlAt(u) && forall i :: 0 <= i < |u| ==> !IsSpaceChar(u[i])
  }

  /** Rendering the pieces with each URL as itself gives the text back. */
  lemma {:induction false} PiecesRender(s: string)
    ensures Render(Pieces(s), None) == s
    decreases |s|
  {
    if s != [] {
      if UrlAt(s) {
        var w := Run(s);
        var rest := Pieces(s[|w|..]);
        PiecesRender(s[|w|..]);
        RenderCons(Link(w), rest);
        assert s == w + s[|w|..];
      } else {
        var rest := Pieces(s[1..]);
        PiecesRender(s[1..]);
        RenderCons(Plain(s[0]), rest);
        assert s == [s[0]] + s[1..];
      }
    }
  }

  lemma RenderCons(p: Piece, rest: seq<Piece>)
    ensures Render([p] + rest, None) == (match p case Plain(c) => [c] case Link(u) => u) + Render(rest, None)
  {
    assert ([p] + rest)[1..] == rest;
  }

  lemma {:induction false} PiecesLinks(s: string)
    ensures forall k :: 0 <= k < |Links(Pieces(s))| ==> GoodUrl(Links(Pieces(s))[k])
    decreases |s|
  {
    if s != [] {
      if UrlAt(s) {
        var w := Run(s);
        PiecesLinks(s[|w|..]);
        RunUrl(s);
        assert Links(Pieces(s)) == [w] + Links(Pieces(s[|w|..]));
      } else {
        PiecesLinks(s[1..]);
        assert Links(Pieces(s)) == Links(Pieces(s[1..]));
      }
    }
  }

  /** The run a URL match takes is itself a good URL. */
  lemma RunUrl(s: string)
    requires UrlAt(s)
    ensures GoodUrl(Run(s))
  {
    var w := Run(s);
    RunAll(w);
    if StartsWith(s, "http://") && |w| > 7 {
      PrefixOfPrefix(s, w, "http://");
    } else if StartsWith(s, "https://") && |w| > 8 {
      PrefixOfPrefix(s, w, "https://");
    } else {
      PrefixOfPrefix(s, w, "www.");
    }
  }

  lemma PrefixOfPrefix(s: string, w: string, p: string)
    requires |w| <= |s| && w == s[..|w|] && |p| <= |w| && StartsWith(s, p)
    ensures StartsWith(w, p)
  {
    assert w[..|p|] == s[..|p|];
  }

  lemma {:induction false} RunAll(w: string)
    requires forall i :: 0 <= i < |w| ==> !IsSpaceChar(w[i])
    ensures Run(w) == w
  {
    if w != [] {
      RunAll(w[1..]);
    }
  }

  // ---------------------------------------------------------------------
  // `normalize_whitespace`
  // ---------------------------------------------------------------------

  /** `[line.strip() for line in lines]` without the empty ones. */
  function StrippedLines(lines: seq<string>): (r: seq<string>)
    ensures forall k :: 0 <= k < |r| ==> r[k] != [] && !IsSpaceChar(r[k][0]) && !IsSpaceChar(r[k][|r[k]| - 1])
  {
    if lines == [] then []
    else
      var l := Strip(lines[0]);
      (if l == [] then [] else [l]) + StrippedLines(lines[1..])
  }

  /** `re.sub(r' +', ' ', s)` */
  function CollapseSpaces(s: string): (r: string)
    decreases |s|
  {
    if s == [] then []
    else if s[0] == ' ' then [' '] + CollapseSpaces(DropSpaces(s[1..]))
    else [s[0]] + CollapseSpaces(s[1..])
  }

  /** `s` without its leading spaces. */
  function DropSpaces(s: string): (r: string)
    ensures |r| <= |s| && r == s[|s| - |r|..]
    ensures r != [] ==> r[0] != ' '
    ensures forall i :: 0 <= i < |s| - |r| ==> s[i] == ' '
  {
    if s != [] && s[0] == ' ' then DropSpaces(s[1..]) else s
  }

  /** No two spaces in a row. */
  predicate NoDoubleSpace(s: string)
  {
    forall i :: 0 <= i < |s| - 1 ==> !(s[i] == ' ' && s[i + 1] == ' ')
  }

  /** One step of the collapse: the first character, then the collapse of the rest. */
  lemma CollapseStep(s: string)
    requires s != []
    ensures var t := if s[0] == ' ' then DropSpaces(s[1..]) else s[1..];
      && CollapseSpaces(s) == [s[0]] + CollapseSpaces(t)
      && CollapseSpaces(s)[1..] == CollapseSpaces(t)
      && t == s[|s| - |t|..]
      && (t != [] ==> t[0] != ' ' || s[0] != ' ')
  {
  }

  /** After collapsing there is no double space. */
  lemma {:induction false} CollapseNoDouble(s: string)
    ensures NoDoubleSpace(CollapseSpaces(s))
    ensures CollapseSpaces(s) != [] && CollapseSpaces(s)[0] == ' ' ==> s != [] && s[0] == ' '
    decreases |s|
  {
    if s != [] {
      var t := if s[0] == ' ' then DropSpaces(s[1..]) else s[1..];
      CollapseStep(s);
      CollapseNoDouble(t);
      var r := CollapseSpaces(s);
      forall i | 0 <= i < |r| - 1
        ensures !(r[i] == ' ' && r[i + 1] == ' ')
      {
        if i > 0 {
          assert r[i] == r[1..][i - 1] && r[i + 1] == r[1..][i];
        }
      }
    }
  }

  /** Collapsing brings in no newline. */
  lemma {:induction false} CollapseNoNewline(s: string)
    requires '\n' !in s
    ensures '\n' !in CollapseSpaces(s)
    decreases |s|
  {
    if s != [] {
      var t := if s[0] == ' ' then DropSpaces(s[1..]) else s[1..];
      CollapseStep(s);
      CollapseNoNewline(t);
    }
  }

  /** Dropping leading spaces changes no other character. */
  lemma DropSpacesNonSpace(s: string)
    ensures NonSpace(DropSpaces(s)) == NonSpace(s)
  {
    var t := DropSpaces(s);
    var gap := s[..|s| - |t|];
    assert s == gap + t;
    NonSpaceAppend(gap, t);
    NonSpaceBlank(gap);
  }

  /** Collapsing only changes spaces. */
  lemma {:induction false} CollapseNonSpace(s: string)
    ensures NonSpace(CollapseSpaces(s)) == NonSpace(s)
    decreases |s|
  {
    if s != [] {
      var t := if s[0] == ' ' then DropSpaces(s[1..]) else s[1..];
      CollapseStep(s);
      CollapseNonSpace(t);
      if s[0] == ' ' {
        DropSpacesNonSpace(s[1..]);
      }
    }
  }

  /** `normalize_whitespace` */
  function NormalizeWhitespace(text: string): string
  {
    CollapseSpaces(Join(StrippedLines(SplitOn(text, '\n')), " "))
  }

  /** The normalized text has no newline and no double space. */
  lemma NormalizeWhitespaceShape(text: string)
    ensures '\n' !in NormalizeWhitespace(text)
    ensures NoDoubleSpace(NormalizeWhitespace(text))
  {
    var lines := StrippedLines(SplitOn(text, '\n'));
    StrippedLinesNoNewline(SplitOn(text, '\n'));
    JoinNoChar(lines, " ", '\n');
    CollapseNoDouble(Join(lines, " "));
    CollapseNoNewline(Join(lines, " "));
  }

  /** The normalized text keeps every non-whitespace character, in order. */
  lemma NormalizeWhitespaceKeeps(text: string)
    ensures NonSpace(NormalizeWhitespace(text)) == NonSpace(text)
  {
    var pieces := SplitOn(text, '\n');
    var lines := StrippedLines(pieces);
    var joined := Join(lines, " ");
    CollapseNonSpace(joined);
    assert NonSpace(NormalizeWhitespace(text)) == NonSpace(joined);
    JoinNonSpace(lines, " ");
    StrippedLinesNonSpace(pieces);
    assert NonSpace(joined) == NonSpaceAll(pieces);
    JoinNonSpace(pieces, ['\n']);
    SplitOnJoin(text, '\n');
  }

  lemma {:induction false} StrippedLinesNoNewline(lines: seq<string>)
    requires forall k :: 0 <= k < |lines| ==> '\n' !in lines[k]
    ensures forall k :: 0 <= k < |StrippedLines(lines)| ==> '\n' !in StrippedLines(lines)[k]
  {
    if lines != [] {
      StrippedLinesNoNewline(lines[1..]);
      var l := Strip(lines[0]);
      StripSub(lines[0]);
      var rest := StrippedLines(lines[1..]);
      assert StrippedLines(lines) == (if l == [] then [] else [l]) + rest;
    }
  }

  /** `strip()` gives a piece of the string. */
  lemma StripSub(s: string)
    ensures forall c :: c in Strip(s) ==> c in s
  {
    var l := StripLeft(s);
    var r := StripRight(l);
    assert forall i :: 0 <= i < |r| ==> r[i] == l[i] && l[i] == s[|s| - |l| + i];
  }

  /** The non-whitespace characters of several strings, in order. */
  function NonSpaceAll(parts: seq<string>): string
  {
    if parts == [] then [] else NonSpace(parts[0]) + NonSpaceAll(parts[1..])
  }

  /** Stripping lines and dropping the empty ones loses only whitespace. */
  lemma {:induction false} StrippedLinesNonSpace(lines: seq<string>)
    ensures NonSpaceAll(StrippedLines(lines)) == NonSpaceAll(lines)
  {
    if lines != [] {
      StrippedLinesNonSpace(lines[1..]);
      var l := Strip(lines[0]);
      NonSpaceStrip(lines[0]);
      var rest := StrippedLines(lines[1..]);
      if l == [] {
        assert StrippedLines(lines) == rest;
      } else {
        assert StrippedLines(lines) == [l] + rest;
        assert ([l] + rest)[1..] == rest;
      }
    }
  }

  /** Joining with a whitespace separator adds no non-whitespace character. */
  lemma {:induction false} JoinNonSpace(parts: seq<string>, sep: string)
    requires IsBlank(sep)
    ensures NonSpace(Join(parts, sep)) == NonSpaceAll(parts)
  {
    if |parts| == 1 {
      assert parts[1..] == [];
      assert NonSpaceAll(parts) == NonSpace(parts[0]) + [];
    } else if |parts| > 1 {
      JoinNonSpace(parts[1..], sep);
      NonSpaceAppend(parts[0] + sep, Join(parts[1..], sep));
      NonSpaceAppend(parts[0], sep);
      NonSpaceBlank(sep);
    }
  }

  /** A character in no part and not in the separator is not in the join. */
  lemma {:induction false} JoinNoChar(parts: seq<string>, sep: string, c: char)
    requires c !in sep && forall k :: 0 <= k < |parts| ==> c !in parts[k]
    ensures c !in Join(parts, sep)
  {
    if |parts| > 1 {
      JoinNoChar(parts[1..], sep, c);
    }
  }
  // ---------------------------------------------------------------------
  // `fix_sentence_boundaries`
  // ---------------------------------------------------------------------

  predicate IsStop(c: char) { c == '.' || c == '!' || c == '?' }

  /** `re.sub(r'([.!?])\s+', r'\1 ', s)`: the whitespace run after `.`, `!` or `?` becomes one space. */
  function SpaceAfterStops(s: string): (r: string)
    decreases |s|
  {
    if s == [] then []
    else if IsStop(s[0]) && |s| > 1 && IsSpaceChar(s[1]) then [s[0], ' '] + SpaceAfterStops(StripLeft(s[1..]))
    else [s[0]] + SpaceAfterStops(s[1..])
  }

  /** The fallback changes whitespace only. */
  lemma {:induction false} SpaceAfterStopsKeeps(s: string)
    ensures NonSpace(SpaceAfterStops(s)) == NonSpace(s)
    decreases |s|
  {
    if s != [] {
      if IsStop(s[0]) && |s| > 1 && IsSpaceChar(s[1]) {
        var x := SpaceAfterStops(StripLeft(s[1..]));
        SpaceAfterStopsKeeps(StripLeft(s[1..]));
        StopSpaceStep(s[0], s[1..], x);
        assert [s[0]] + s[1..] == s;
      } else {
        SpaceAfterStopsKeeps(s[1..]);
      }
    }
  }

  /** The step of `SpaceAfterStopsKeeps` at a stop `c` followed by whitespace and then `t`. */
  lemma StopSpaceStep(c: char, t: string, x: string)
    requires IsStop(c)
    requires NonSpace(x) == NonSpace(StripLeft(t))
    ensures NonSpace([c, ' '] + x) == NonSpace([c] + t)
  {
    calc {
      NonSpace([c, ' '] + x);
      { NonSpaceAppend([c, ' '], x); }
      NonSpace([c, ' ']) + NonSpace(x);
      { NonSpaceStopSpace(c); StripLeftKeeps(t); }
      [c] + NonSpace(t);
      { NonSpaceStopSpace(c); NonSpaceAppend([c], t); }
      NonSpace([c] + t);
    }
  }

  lemma NonSpaceStopSpace(c: char)
    requires IsStop(c)
    ensures NonSpace([c, ' ']) == [c]
    ensures NonSpace([c]) == [c]
  {
    assert [c, ' '][1..] == [' '];
    assert [' '][1..] == [];
    assert [c][1..] == [];
  }

  lemma StripLeftKeeps(t: string)
    ensures NonSpace(StripLeft(t)) == NonSpace(t)
  {
    var l := StripLeft(t);
    var a := |t| - |l|;
    assert t == t[..a] + l;
    NonSpaceAppend(t[..a], l);
    NonSpaceBlank(t[..a]);
  }

  /** `[s.strip() for s in sentences if len(s.strip()) > 5]` */
  function LongSentences(ss: seq<string>): (r: seq<string>)
    ensures |r| <= |ss|
  {
    if ss == [] then []
    else
      var t := Strip(ss[0]);
      (if |t| > 5 then [t] else []) + LongSentences(ss[1..])
  }

  /** A sentence `fix_sentence_boundaries` keeps: longer than five characters, no surrounding whitespace. */
  predicate LongTrimmed(r: string)
  {
    |r| > 5 && !IsSpaceChar(r[0]) && !IsSpaceChar(r[|r| - 1])
  }

  /** Every sentence kept is longer than five characters and has no surrounding whitespace. */
  lemma {:induction false} LongSentencesSpec(ss: seq<string>)
    ensures forall k :: 0 <= k < |LongSentences(ss)| ==> LongTrimmed(LongSentences(ss)[k])
  {
    if ss != [] {
      LongSentencesSpec(ss[1..]);
      var t := Strip(ss[0]);
      assert LongSentences(ss) == (if |t| > 5 then [t] else []) + LongSentences(ss[1..]);
      KeepLongTrimmed(t, LongSentences(ss[1..]), LongSentences(ss));
    }
  }

  lemma KeepLongTrimmed(t: string, rest: seq<string>, r: seq<string>)
    requires t != [] ==> !IsSpaceChar(t[0]) && !IsSpaceChar(t[|t| - 1])
    requires forall k :: 0 <= k < |rest| ==> LongTrimmed(rest[k])
    requires r == (if |t| > 5 then [t] else []) + rest
    ensures forall k :: 0 <= k < |r| ==> LongTrimmed(r[k])
  {
    forall k | 0 <= k < |r|
      ensures LongTrimmed(r[k])
    {
      if |t| > 5 && k > 0 {
        assert r[k] == rest[k - 1];
      }
    }
  }

  /**
   * `fix_sentence_boundaries`; `tokenize` is NLTK's `sent_tokenize`,
   * whose exception selects the regular-expression fallback.
   */
  function FixSentences(text: string, tokenize: string -> Outcome<seq<string>>): string
  {
    match tokenize(text)
    case Success(sentences) => Join(LongSentences(sentences), " ")
    case Failure(_) => SpaceAfterStops(text)
  }

  // ---------------------------------------------------------------------
  // `normalize`
  // ---------------------------------------------------------------------

  /** The keyword flags of `normalize`; `lexical` is `None` when not passed. */
  datatype Flags = Flags(
    extractUrls: bool, removeEmails: bool, fixEncoding: bool,
    fixWhitespace: bool, fixSentences: bool, lexical: Option<bool>)

  /** The collaborators `normalize` calls that are not modelled here. */
  datatype Externals = Externals(
    nfc: string -> string,
    removeEmails: string -> string,
    lexicalRepair: string -> string,
    tokenize: string -> Outcome<seq<string>>)

  /**
   * `normalize`: the steps in their fixed order, each only when its flag
   * is set, then a final strip; lexical repair runs only when it is
   * explicitly requested.
   */
  function Normalize(text: string, flags: Flags, ext: Externals): (string, seq<string>)
  {
    var t4 := BeforeWhitespace(text, flags, ext);
    var t5 := if flags.fixWhitespace then NormalizeWhitespace(t4) else t4;
    var t6 := if flags.fixSentences then FixSentences(t5, ext.tokenize) else t5;
    (Strip(t6), if flags.extractUrls then ExtractUrls(Encoded(text, flags, ext)).1 else [])
  }

  /** The text after the encoding step. */
  function Encoded(text: string, flags: Flags, ext: Externals): string
  {
    if flags.fixEncoding then FixEncoding(ext.nfc(text)) else text
  }

  /** The text after URL extraction, e-mail removal and lexical repair. */
  function BeforeWhitespace(text: string, flags: Flags, ext: Externals): string
  {
    var t1 := Encoded(text, flags, ext);
    var t2 := if flags.extractUrls then ExtractUrls(t1).0 else t1;
    var t3 := if flags.removeEmails then ext.removeEmails(t2) else t2;
    if flags.lexical == Some(true) then ext.lexicalRepair(t3) else t3
  }

  /** Unless lexical repair is explicitly requested, what it would do has no effect. */
  lemma LexicalOnlyWhenRequested(text: string, flags: Flags, ext: Externals, other: string -> string)
    requires flags.lexical != Some(true)
    ensures Normalize(text, flags, ext) == Normalize(text, flags, ext.(lexicalRepair := other))
  {
  }

  /** Lexical repair turned off and left unset normalize alike. */
  lemma LexicalOffIsUnset(text: string, flags: Flags, ext: Externals)
    requires flags.lexical != Some(true)
    ensures Normalize(text, flags, ext) == Normalize(text, flags.(lexical := None), ext)
  {
    assert Encoded(text, flags, ext) == Encoded(text, flags.(lexical := None), ext);
    assert BeforeWhitespace(text, flags, ext) == BeforeWhitespace(text, flags.(lexical := None), ext);
  }

  /**
   * The URLs returned are the pattern's matches, none with whitespace,
   * and there are none when extraction is off.
   */
  lemma NormalizeUrls(text: string, flags: Flags, ext: Externals)
    ensures !flags.extractUrls ==> Normalize(text, flags, ext).1 == []
    ensures forall k :: 0 <= k < |Normalize(text, flags, ext).1| ==> GoodUrl(Normalize(text, flags, ext).1[k])
  {
    PiecesSpec(Encoded(text, flags, ext));
  }

  /**
   * With whitespace normalization and no sentence fixing, the text comes
   * out on one line without double spaces or surrounding whitespace.
   */
  lemma NormalizeOneLine(text: string, flags: Flags, ext: Externals)
    requires flags.fixWhitespace && !flags.fixSentences
    ensures OneLine(Normalize(text, flags, ext).0)
  {
    var t4 := BeforeWhitespace(text, flags, ext);
    var t5 := NormalizeWhitespace(t4);
    NormalizeWhitespaceShape(t4);
    StripShape(t5);
    assert Normalize(text, flags, ext).0 == Strip(t5);
  }

  /** One line, no double space, no surrounding whitespace. */
  predicate OneLine(r: string)
  {
    && '\n' !in r && NoDoubleSpace(r)
    && (r != [] ==> !IsSpaceChar(r[0]) && !IsSpaceChar(r[|r| - 1]))
  }

  /** Stripping keeps a text on one line and free of double spaces. */
  lemma StripShape(t: string)
    requires '\n' !in t && NoDoubleSpace(t)
    ensures OneLine(Strip(t))
  {
    var l := StripLeft(t);
    var a := |t| - |l|;
    TrimmedSliceOneLine(t, a, StripRight(l));
  }

  lemma TrimmedSliceOneLine(t: string, a: nat, r: string)
    requires a <= |t| && |r| <= |t| - a && r == t[a..][..|r|]
    requires '\n' !in t && NoDoubleSpace(t)
    requires r != [] ==> !IsSpaceChar(r[0]) && !IsSpaceChar(r[|r| - 1])
    ensures OneLine(r)
  {
    assert r == t[a..a + |r|];
    SliceOneLine(t, a, a + |r|);
  }

  /** A slice of a text without newlines or double spaces has neither. */
  lemma SliceOneLine(t: string, a: nat, b: nat)
    requires a <= b <= |t|
    requires '\n' !in t && NoDoubleSpace(t)
    ensures '\n' !in t[a..b] && NoDoubleSpace(t[a..b])
  {
    var u := t[a..b];
    forall i | 0 <= i < |u| - 1
      ensures !(u[i] == ' ' && u[i + 1] == ' ')
    {
      assert u[i] == t[a + i] && u[i + 1] == t[a + i + 1];
    }
  }

  /** The dictionary `get_normalization_config` returns. */
  datatype NormalizationConfig = NormalizationConfig(
    removeUrls: bool, removeEmails: bool, fixEncoding: bool, fixWhitespace: bool, fixSentences: bool,
    nltkTokenizer: string, unicodeForm: string)

  /** `get_normalization_config`: the flags echoed, with the fixed tokenizer and Unicode form. */
  function GetNormalizationConfig(removeUrls: bool, removeEmails: bool, fixEncoding: bool,
                                  fixWhitespace: bool, fixSentences: bool): (r: NormalizationConfig)
    ensures (r.removeUrls, r.removeEmails, r.fixEncoding, r.fixWhitespace, r.fixSentences)
         == (removeUrls, removeEmails, fixEncoding, fixWhitespace, fixSentences)
    ensures r.nltkTokenizer == "punkt" && r.unicodeForm == "NFC"
  {
    NormalizationConfig(removeUrls, removeEmails, fixEncoding, fixWhitespace, fixSentences, "punkt", "NFC")
  }
}
