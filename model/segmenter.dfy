/**
 * Splitting normalized text into blocks: by groups of sentences, by
 * paragraphs (short ones folded into the previous block), or by a sliding
 * character window. The two regular-expression splits are written out as
 * scans over the characters.
 */
module Segmenter {
  import opened Common

  // ---------------------------------------------------------------------
  // Joining with a separator
  // ---------------------------------------------------------------------

  lemma {:induction false} JoinConcat(a: seq<string>, b: seq<string>, sep: string)
    requires a != [] && b != []
    ensures Join(a + b, sep) == Join(a, sep) + sep + Join(b, sep)
  {
    if |a| == 1 {
      assert (a + b)[1..] == b;
    } else {
      assert (a + b)[1..] == a[1..] + b;
      JoinConcat(a[1..], b, sep);
    }
  }

  /** A non-empty string without surrounding whitespace, as `strip()` leaves it. */
  predicate Trimmed(s: string)
  {
    s != [] && !IsSpaceChar(s[0]) && !IsSpaceChar(s[|s| - 1])
  }

  /** Joining trimmed parts with single spaces gives a trimmed string. */
  lemma {:induction false} JoinTrimmed(parts: seq<string>)
    requires parts != [] && forall k :: 0 <= k < |parts| ==> Trimmed(parts[k])
    ensures Trimmed(Join(parts, " "))
  {
    if |parts| > 1 {
      JoinTrimmed(parts[1..]);
    }
  }

  /** `[s.strip() for s in pieces if s.strip()]` */
  function StrippedNonBlank(pieces: seq<string>): (r: seq<string>)
    ensures |r| <= |pieces|
    ensures forall k :: 0 <= k < |r| ==> Trimmed(r[k])
  {
    if pieces == [] then []
    else
      var rest := StrippedNonBlank(pieces[..|pieces| - 1]);
      var p := Trim(pieces[|pieces| - 1]);
      TrimSpec(pieces[|pieces| - 1]);
      if p == [] then rest else rest + [p]
  }

  /** Index of the first non-whitespace character of `s` at or after `i`. */
  function Lead(s: string, i: nat): (k: nat)
    requires i <= |s|
    ensures i <= k <= |s|
    ensures k < |s| ==> !IsSpaceChar(s[k])
    decreases |s| - i
  {
    if i < |s| && IsSpaceChar(s[i]) then Lead(s, i + 1) else i
  }

  /** One past the last non-whitespace character of `s` before `j`, not going below `lo`. */
  function Trail(s: string, lo: nat, j: nat): (k: nat)
    requires lo <= j <= |s|
    ensures lo <= k <= j
    ensures lo < k ==> !IsSpaceChar(s[k - 1])
    decreases j
  {
    if lo < j && IsSpaceChar(s[j - 1]) then Trail(s, lo, j - 1) else j
  }

  /** `s.strip()` computed by positions; `TrimIsStrip` shows it is `Strip`. */
  function Trim(s: string): string
  {
    var a := Lead(s, 0);
    s[a..Trail(s, a, |s|)]
  }

  lemma {:induction false} LeadLeft(s: string, i: nat)
    requires i <= |s|
    ensures StripLeft(s[i..]) == s[Lead(s, i)..]
    decreases |s| - i
  {
    if i < |s| && IsSpaceChar(s[i]) {
      assert s[i..][1..] == s[i + 1..];
      LeadLeft(s, i + 1);
    }
  }

  lemma {:induction false} TrailRight(s: string, lo: nat, j: nat)
    requires lo <= j <= |s|
    ensures StripRight(s[lo..j]) == s[lo..Trail(s, lo, j)]
    decreases j
  {
    if lo < j && IsSpaceChar(s[j - 1]) {
      assert s[lo..j][..j - lo - 1] == s[lo..j - 1];
      TrailRight(s, lo, j - 1);
    }
  }

  lemma TrimIsStrip(s: string)
    ensures Trim(s) == Strip(s)
  {
    LeadLeft(s, 0);
    assert s[0..] == s;
    TrailRight(s, Lead(s, 0), |s|);
    assert s[Lead(s, 0)..][..] == s[Lead(s, 0)..|s|];
  }

  /** What `strip()` leaves is empty or trimmed, and a trimmed string is left as it is. */
  lemma TrimSpec(s: string)
    ensures Trim(s) != [] ==> Trimmed(Trim(s))
    ensures Trimmed(s) ==> Trim(s) == s
  {
    if Trimmed(s) {
      assert Lead(s, 0) == 0;
      assert Trail(s, 0, |s|) == |s|;
    }
  }

  // ---------------------------------------------------------------------
  // `segment_by_sentences`
  // ---------------------------------------------------------------------

  predicate IsStop(c: char) { c == '.' || c == '!' || c == '?' }

  /** The end of the whitespace run starting at `j`. */
  function SkipSpaces(t: string, j: nat): (k: nat)
    requires j <= |t|
    ensures j <= k <= |t|
    ensures forall m :: j <= m < k ==> IsSpaceChar(t[m])
    ensures k < |t| ==> !IsSpaceChar(t[k])
    decreases |t| - j
  {
    if j < |t| && IsSpaceChar(t[j]) then SkipSpaces(t, j + 1) else j
  }

  /**
   * `re.split(r'(?<=[.!?])\s+', t)` from the piece that starts at `start`,
   * scanning at `i`: a whitespace run right after `.`, `!` or `?` ends a piece.
   */
  function SentencePieces(t: string, start: nat, i: nat): (r: seq<string>)
    requires start <= i <= |t|
    requires start == 0 || IsSpaceChar(t[start - 1])
    ensures r != []
    ensures forall k :: 0 <= k < |r| - 1 ==> r[k] != [] && IsStop(r[k][|r[k]| - 1])
    decreases |t| - i
  {
    if i == |t| then [t[start..]]
    else if i > 0 && IsStop(t[i - 1]) && IsSpaceChar(t[i]) then
      assert i != start;
      var j := SkipSpaces(t, i);
      [t[start..i]] + SentencePieces(t, j, j)
    else SentencePieces(t, start, i + 1)
  }

  /** The sentences of a text: the stripped non-blank pieces. */
  function Sentences(text: string): (r: seq<string>)
    ensures forall k :: 0 <= k < |r| ==> Trimmed(r[k])
  {
    StrippedNonBlank(SentencePieces(text, 0, 0))
  }

  /** Consecutive groups of `n` sentences, the last possibly shorter, each joined with single spaces. */
  function Chunks(s: seq<string>, n: nat): (r: seq<string>)
    requires n >= 1
    decreases |s|
  {
    if s == [] then []
    else if |s| <= n then [Join(s, " ")]
    else [Join(s[..n], " ")] + Chunks(s[n..], n)
  }

  /** One block per started group: ceil(#sentences / n) blocks. */
  lemma {:induction false} ChunkCount(s: seq<string>, n: nat)
    requires n >= 1
    ensures |s| <= |Chunks(s, n)| * n < |s| + n
    decreases |s|
  {
    if |s| > n {
      ChunkCount(s[n..], n);
      var k := |Chunks(s[n..], n)|;
      assert |Chunks(s, n)| == k + 1;
      assert (k + 1) * n == k * n + n;
    }
  }

  /** Joining the blocks with spaces gives back the sentences joined with spaces: nothing split, dropped or reordered. */
  lemma {:induction false} ChunksRejoin(s: seq<string>, n: nat)
    requires n >= 1
    ensures Join(Chunks(s, n), " ") == Join(s, " ")
    decreases |s|
  {
    if |s| > n {
      ChunksRejoin(s[n..], n);
      var rest := Chunks(s[n..], n);
      assert rest != [];
      assert Chunks(s, n) == [Join(s[..n], " ")] + rest;
      assert Join(Chunks(s, n), " ") == Join(s[..n], " ") + " " + Join(rest, " ");
      JoinConcat(s[..n], s[n..], " ");
      assert s[..n] + s[n..] == s;
    }
  }

  /** Every block is trimmed, so non-empty, when the sentences are. */
  lemma {:induction false} ChunksTrimmed(s: seq<string>, n: nat)
    requires n >= 1
    requires forall k :: 0 <= k < |s| ==> Trimmed(s[k])
    ensures forall k :: 0 <= k < |Chunks(s, n)| ==> Trimmed(Chunks(s, n)[k])
    decreases |s|
  {
    if s != [] {
      if |s| <= n {
        JoinTrimmed(s);
      } else {
        JoinTrimmed(s[..n]);
        ChunksTrimmed(s[n..], n);
      }
    }
  }

  /** The group starting at `i`, as the loop slices it. */
  function Group(s: seq<string>, i: nat, n: nat): seq<string>
    requires i <= |s|
  {
    s[i..if i + n <= |s| then i + n else |s|]
  }

  /**
   * One turn of the sentence loop: the group at `i`, joined, is the first
   * block of what is left, and `strip()` leaves it as it is.
   */
  lemma GroupBlock(s: seq<string>, i: nat, n: nat)
    requires n >= 1 && i < |s|
    requires forall k :: 0 <= k < |s| ==> Trimmed(s[k])
    ensures Trim(Join(Group(s, i, n), " ")) == Join(Group(s, i, n), " ") != []
    ensures Chunks(s[i..], n) == [Join(Group(s, i, n), " ")] + Chunks(s[Min(i + n, |s|)..], n)
  {
    var group := Group(s, i, n);
    assert forall k :: 0 <= k < |group| ==> group[k] == s[i + k];
    JoinTrimmed(group);
    TrimSpec(Join(group, " "));
    if i + n < |s| {
      assert s[i..][..n] == group;
      assert s[i..][n..] == s[i + n..];
    } else {
      assert s[i..] == group;
      assert s[|s|..] == [];
    }
  }

  /** The sentence loop keeps its invariant: the blocks so far, then the chunks of the rest, are all the chunks. */
  lemma SentenceStep(s: seq<string>, n: nat, i: nat, blocks: seq<string>)
    requires n >= 1 && i < |s|
    requires forall k :: 0 <= k < |s| ==> Trimmed(s[k])
    requires blocks + Chunks(s[i..], n) == Chunks(s, n)
    ensures Trim(Join(Group(s, i, n), " ")) == Join(Group(s, i, n), " ") != []
    ensures (blocks + [Join(Group(s, i, n), " ")]) + Chunks(s[Min(i + n, |s|)..], n) == Chunks(s, n)
  {
    GroupBlock(s, i, n);
    var b := Join(Group(s, i, n), " ");
    var rest := Chunks(s[Min(i + n, |s|)..], n);
    assert (blocks + [b]) + rest == blocks + ([b] + rest);
  }

  /**
   * `segment_by_sentences`. `range(0, len, n)` raises for a step of 0 and
   * is empty for a negative one.
   */
  method SegmentBySentences(text: string, n: int) returns (r: Outcome<seq<string>>)
    ensures n == 0 <==> r.Failure?
    ensures n < 0 ==> r == Success([])
    ensures n > 0 ==> r == Success(Chunks(Sentences(text), n))
  {
    if n == 0 {
      return Failure("ValueError: range() arg 3 must not be zero");
    }
    if n < 0 {
      return Success([]);
    }
    var blocks := GroupSentences(Sentences(text), n);
    return Success(blocks);
  }

  /** The loop of `segment_by_sentences` over the stripped non-blank sentences. */
  method GroupSentences(sentences: seq<string>, n: nat) returns (blocks: seq<string>)
    requires n >= 1
    requires forall k :: 0 <= k < |sentences| ==> Trimmed(sentences[k])
    ensures blocks == Chunks(sentences, n)
  {
    blocks := [];
    var i := 0;
    while i < |sentences|
      invariant 0 <= i
      invariant blocks + Chunks(sentences[Min(i, |sentences|)..], n) == Chunks(sentences, n)
      decreases |sentences| - i
    {
      var group := Group(sentences, i, n);
      var block := Join(group, " ");
      SentenceStep(sentences, n, i, blocks);
      var stripped := Trim(block);
      if stripped != [] {
        blocks := blocks + [stripped];
      }
      i := i + n;
      assert blocks + Chunks(sentences[Min(i, |sentences|)..], n) == Chunks(sentences, n);
    }
    assert Min(i, |sentences|) == |sentences|;
    assert sentences[|sentences|..] == [];
    assert Chunks(sentences[|sentences|..], n) == [];
    assert blocks + [] == blocks;
  }

  // ---------------------------------------------------------------------
  // `segment_by_paragraphs`
  // ---------------------------------------------------------------------

  /** The end of the newline run starting at `j`. */
  function SkipNewlines(t: string, j: nat): (k: nat)
    requires j <= |t|
    ensures j <= k <= |t|
    ensures forall m :: j <= m < k ==> t[m] == '\n'
    decreases |t| - j
  {
    if j < |t| && t[j] == '\n' then SkipNewlines(t, j + 1) else j
  }

  /** `re.split(r'\n{2,}', t)`: every run of two or more newlines ends a piece. */
  function ParagraphPieces(t: string, start: nat, i: nat): (r: seq<string>)
    requires start <= i <= |t|
    ensures r != []
    decreases |t| - i
  {
    if i == |t| then [t[start..]]
    else if i + 1 < |t| && t[i] == '\n' && t[i + 1] == '\n' then
      var j := SkipNewlines(t, i);
      [t[start..i]] + ParagraphPieces(t, j, j)
    else ParagraphPieces(t, start, i + 1)
  }

  function Paragraphs(text: string): (r: seq<string>)
    ensures forall k :: 0 <= k < |r| ==> Trimmed(r[k])
  {
    StrippedNonBlank(ParagraphPieces(text, 0, 0))
  }

  /** The blocks after reading the paragraphs in order: a short one is appended to the previous block. */
  function Merged(ps: seq<string>, minLen: int): (r: seq<string>)
    ensures |r| <= |ps|
    ensures ps != [] && ps[0] != [] ==> r != []
  {
    if ps == [] then []
    else
      var b := Merged(ps[..|ps| - 1], minLen);
      var p := ps[|ps| - 1];
      if |p| > minLen then b + [p]
      else if |p| > 0 then
        if b != [] then b[..|b| - 1] + [b[|b| - 1] + " " + p] else [p]
      else b
  }

  /** Every block after the first is longer than the minimum. */
  lemma {:induction false} MergedLong(ps: seq<string>, minLen: int)
    ensures forall k :: 1 <= k < |Merged(ps, minLen)| ==> |Merged(ps, minLen)[k]| > minLen
  {
    if ps != [] {
      MergedLong(ps[..|ps| - 1], minLen);
      var b := Merged(ps[..|ps| - 1], minLen);
      var p := ps[|ps| - 1];
      if |p| <= minLen && |p| > 0 && b != [] {
        var r := Merged(ps, minLen);
        assert forall k :: 0 <= k < |b| - 1 ==> r[k] == b[k];
        if |b| > 1 {
          assert |r[|b| - 1]| >= |b[|b| - 1]|;
        }
      }
    }
  }

  /** Extending the last part by `sep + p` extends the joined string by the same. */
  lemma JoinExtendLast(b: seq<string>, p: string, sep: string)
    requires b != []
    ensures Join(b[..|b| - 1] + [b[|b| - 1] + sep + p], sep) == Join(b, sep) + sep + p
  {
    var init := b[..|b| - 1];
    var last := b[|b| - 1];
    if init == [] {
      assert b == [last];
    } else {
      assert b == init + [last];
      JoinAppend(init, last, sep);
      JoinAppend(init, last + sep + p, sep);
    }
  }

  /** One more paragraph adds `" " + p` to the joined blocks, once there is a block. */
  lemma MergedJoinStep(ps: seq<string>, minLen: int)
    requires |ps| >= 2 && ps[0] != [] && ps[|ps| - 1] != []
    ensures Join(Merged(ps, minLen), " ") == Join(Merged(ps[..|ps| - 1], minLen), " ") + " " + ps[|ps| - 1]
  {
    var pre := ps[..|ps| - 1];
    var b := Merged(pre, minLen);
    var p := ps[|ps| - 1];
    assert pre[0] == ps[0];
    if |p| > minLen {
      JoinAppend(b, p, " ");
    } else {
      JoinExtendLast(b, p, " ");
    }
  }

  /** With non-empty paragraphs, joining the blocks with spaces gives back the paragraphs joined with spaces. */
  lemma {:induction false} MergedRejoin(ps: seq<string>, minLen: int)
    requires forall k :: 0 <= k < |ps| ==> ps[k] != []
    ensures Join(Merged(ps, minLen), " ") == Join(ps, " ")
  {
    if |ps| == 1 {
      assert ps[..0] == [];
    } else if |ps| > 1 {
      var pre := ps[..|ps| - 1];
      MergedRejoin(pre, minLen);
      MergedJoinStep(ps, minLen);
      assert ps == pre + [ps[|ps| - 1]];
      JoinAppend(pre, ps[|ps| - 1], " ");
    }
  }

  /** One turn of the paragraph loop, with the last block updated in place. */
  lemma ParagraphStep(ps: seq<string>, i: nat, minLen: int)
    requires i < |ps|
    ensures Merged(ps[..i + 1], minLen) ==
      var b := Merged(ps[..i], minLen);
      if |ps[i]| > minLen then b + [ps[i]]
      else if |ps[i]| > 0 then
        if b != [] then b[|b| - 1 := b[|b| - 1] + " " + ps[i]] else b + [ps[i]]
      else b
  {
    assert ps[..i + 1][..i] == ps[..i];
    var b := Merged(ps[..i], minLen);
    if |ps[i]| <= minLen && |ps[i]| > 0 && b != [] {
      assert b[..|b| - 1] + [b[|b| - 1] + " " + ps[i]] == b[|b| - 1 := b[|b| - 1] + " " + ps[i]];
    }
  }

  method SegmentByParagraphs(text: string, minLen: int) returns (blocks: seq<string>)
    ensures blocks == Merged(Paragraphs(text), minLen)
  {
    blocks := MergeParagraphs(Paragraphs(text), minLen);
  }

  /** The loop of `segment_by_paragraphs` over the stripped non-blank paragraphs. */
  method MergeParagraphs(paragraphs: seq<string>, minLen: int) returns (blocks: seq<string>)
    ensures blocks == Merged(paragraphs, minLen)
  {
    blocks := [];
    for i := 0 to |paragraphs|
      invariant blocks == Merged(paragraphs[..i], minLen)
    {
      var para := paragraphs[i];
      ParagraphStep(paragraphs, i, minLen);
      if |para| > minLen {
        blocks := blocks + [para];
      } else if |para| > 0 {
        if blocks != [] {
          blocks := blocks[|blocks| - 1 := blocks[|blocks| - 1] + " " + para];
        } else {
          blocks := blocks + [para];
        }
      }
      assert blocks == Merged(paragraphs[..i + 1], minLen);
    }
    assert paragraphs[..|paragraphs|] == paragraphs;
  }

  // ---------------------------------------------------------------------
  // `segment_by_length`
  // ---------------------------------------------------------------------

  /** How far the window moves: `end - overlap` when overlap is positive, else `end`. */
  function Step(blockLength: int, overlap: int): int
  {
    if overlap > 0 then blockLength - overlap else blockLength
  }

  /** Where the window of `segment_by_length` starts after `k` turns of its loop. */
  function StartAfter(blockLength: int, overlap: int, k: nat): int
  {
    if k == 0 then 0 else StartAfter(blockLength, overlap, k - 1) + Step(blockLength, overlap)
  }

  /**
   * As written, a window step that is not positive (an overlap of at least
   * the block length, or a block length of at most 0 without overlap) keeps
   * every window start at or before the first, so on a non-empty text the
   * loop condition `start < len(text)` holds after every turn.
   */
  lemma {:induction false} NoStepStalls(t: string, blockLength: int, overlap: int, k: nat)
    requires t != [] && Step(blockLength, overlap) <= 0
    ensures StartAfter(blockLength, overlap, k) <= 0 < |t|
  {
    if k > 0 {
      NoStepStalls(t, blockLength, overlap, k - 1);
    }
  }

  /** The text under the window that starts at `start`, stripped. */
  function Block(t: string, start: nat, blockLength: int): (b: string)
    requires start <= |t| && blockLength > 0
  {
    var end := start + blockLength;
    Trim(t[start..if end <= |t| then end else |t|])
  }

  /**
   * The blocks collected after `acc` from the window starting at `start` on;
   * the loop ends at once on an empty text, and otherwise only when the step
   * is positive.
   */
  function WindowsFrom(t: string, blockLength: int, overlap: int, start: nat, acc: seq<string>): (r: seq<string>)
    requires t == [] || Step(blockLength, overlap) > 0
    decreases |t| - start
  {
    if start >= |t| then acc
    else
      var block := Block(t, start, blockLength);
      WindowsFrom(t, blockLength, overlap, start + Step(blockLength, overlap),
        if block != [] then acc + [block] else acc)
  }

  function Windows(t: string, blockLength: int, overlap: int): seq<string>
    requires t == [] || Step(blockLength, overlap) > 0
  {
    WindowsFrom(t, blockLength, overlap, 0, [])
  }

  /** Block `k` of the result: a piece of the text, non-empty, trimmed and no longer than the window. */
  predicate GoodBlock(t: string, b: string, blockLength: int)
  {
    Trimmed(b) && |b| <= blockLength && exists i :: 0 <= i <= |t| && OccursAt(t, b, i)
  }

  /** The block is what `text[start:end].strip()` gives. */
  lemma BlockIsStrip(t: string, start: nat, blockLength: int)
    requires start <= |t| && blockLength > 0
    ensures Block(t, start, blockLength) == Strip(t[start..if start + blockLength <= |t| then start + blockLength else |t|])
  {
    TrimIsStrip(t[start..if start + blockLength <= |t| then start + blockLength else |t|]);
  }

  lemma BlockSpec(t: string, start: nat, blockLength: int)
    requires start <= |t| && blockLength > 0
    ensures Block(t, start, blockLength) != [] ==> GoodBlock(t, Block(t, start, blockLength), blockLength)
  {
    var end := if start + blockLength <= |t| then start + blockLength else |t|;
    var w := t[start..end];
    TrimSpec(w);
    var a := Lead(w, 0);
    var z := Trail(w, a, |w|);
    assert Trim(w) == w[a..z];
    assert a <= z <= |w| == end - start;
    assert w[a..z] == t[start..end][a..z];
    assert w[a..z] == t[start + a..start + z];
    assert start + a + |Trim(w)| == start + z <= |t|;
    assert OccursAt(t, Trim(w), start + a);
  }

  lemma {:induction false} WindowsFromSpec(t: string, blockLength: int, overlap: int, start: nat, acc: seq<string>)
    requires t == [] || Step(blockLength, overlap) > 0
    requires forall k :: 0 <= k < |acc| ==> GoodBlock(t, acc[k], blockLength)
    ensures forall k :: 0 <= k < |WindowsFrom(t, blockLength, overlap, start, acc)| ==>
      GoodBlock(t, WindowsFrom(t, blockLength, overlap, start, acc)[k], blockLength)
    decreases |t| - start
  {
    if start < |t| {
      BlockSpec(t, start, blockLength);
      var block := Block(t, start, blockLength);
      WindowsFromSpec(t, blockLength, overlap, start + Step(blockLength, overlap),
        if block != [] then acc + [block] else acc);
    }
  }

  /** Every block is a piece of the text, non-empty, free of surrounding whitespace and no longer than the window. */
  lemma WindowsSpec(t: string, blockLength: int, overlap: int)
    requires t == [] || Step(blockLength, overlap) > 0
    ensures forall k :: 0 <= k < |Windows(t, blockLength, overlap)| ==>
      GoodBlock(t, Windows(t, blockLength, overlap)[k], blockLength)
  {
    WindowsFromSpec(t, blockLength, overlap, 0, []);
  }

  /** One turn of the window loop. */
  lemma WindowStep(t: string, blockLength: int, overlap: int, start: nat, acc: seq<string>)
    requires start < |t| && Step(blockLength, overlap) > 0
    ensures WindowsFrom(t, blockLength, overlap, start, acc) ==
      WindowsFrom(t, blockLength, overlap, start + Step(blockLength, overlap),
        if Block(t, start, blockLength) != [] then acc + [Block(t, start, blockLength)] else acc)
  {
  }

  /** `segment_by_length`, for parameters with which its loop ends. */
  method SegmentByLength(text: string, blockLength: int, overlap: int) returns (blocks: seq<string>)
    requires text == [] || Step(blockLength, overlap) > 0
    ensures blocks == Windows(text, blockLength, overlap)
  {
    blocks := [];
    var start := 0;
    while start < |text|
      invariant 0 <= start
      invariant WindowsFrom(text, blockLength, overlap, start, blocks) == Windows(text, blockLength, overlap)
      decreases |text| - start
    {
      var block := Block(text, start, blockLength);
      WindowStep(text, blockLength, overlap, start, blocks);
      if block != [] {
        blocks := blocks + [block];
      }
      start := start + Step(blockLength, overlap);
      assert WindowsFrom(text, blockLength, overlap, start, blocks) == Windows(text, blockLength, overlap);
    }
  }

  // ---------------------------------------------------------------------
  // `segment`
  // ---------------------------------------------------------------------

  /** The keyword arguments `segment` reads, `None` when not passed. */
  datatype SegmentArgs = SegmentArgs(
    sentencesPerBlock: Option<int>, minParaLength: Option<int>,
    blockLength: Option<int>, overlap: Option<int>)

  /**
   * `segment`: dispatch on the strategy name. Header detection for
   * "sections" is not modelled; the (title, text) sections are an input.
   */
  method Segment(text: string, strategy: string, args: SegmentArgs, sections: seq<(string, string)>)
    returns (r: Outcome<seq<string>>)
    requires strategy == "length" ==> text == [] || Step(Get(args.blockLength, 300), Get(args.overlap, 50)) > 0
    ensures strategy !in {"sentences", "paragraphs", "length", "sections"} ==> r.Failure?
    ensures strategy == "sentences" && Get(args.sentencesPerBlock, 3) > 0 ==>
      r == Success(Chunks(Sentences(text), Get(args.sentencesPerBlock, 3)))
    ensures strategy == "paragraphs" ==> r == Success(Merged(Paragraphs(text), Get(args.minParaLength, 50)))
    ensures strategy == "length" ==> r == Success(Windows(text, Get(args.blockLength, 300), Get(args.overlap, 50)))
    ensures strategy == "sections" ==>
      && r.Success? && |r.value| == |sections|
      && forall k :: 0 <= k < |sections| ==> r.value[k] == sections[k].1
  {
    if strategy == "sentences" {
      r := SegmentBySentences(text, Get(args.sentencesPerBlock, 3));
    } else if strategy == "paragraphs" {
      var blocks := SegmentByParagraphs(text, Get(args.minParaLength, 50));
      r := Success(blocks);
    } else if strategy == "length" {
      var blocks := SegmentByLength(text, Get(args.blockLength, 300), Get(args.overlap, 50));
      r := Success(blocks);
    } else if strategy == "sections" {
      r := Success(seq(|sections|, k requires 0 <= k < |sections| => sections[k].1));
    } else {
      r := Failure("ValueError: Unknown segmentation strategy");
    }
  }
}
