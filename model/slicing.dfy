/**
 * Sentence slicing of refined text: sentences are packed greedily into
 * blocks, a block being closed before the sentence that would make it
 * hold too many sentences or exceed the token estimate. The estimate of
 * 3.5 characters per token is kept exact by scaling: `c / 3.5 > t` is
 * `2 * c > 7 * t`.
 */
module Slicing {
  import opened Common
  import opened Segmenter

  /** Total characters of a group of sentences. */
  function Chars(g: seq<string>): nat
  {
    if g == [] then 0 else Chars(g[..|g| - 1]) + |g[|g| - 1]|
  }

  /** Adding a sentence of `s` to a block of `curChars` characters keeps the estimate within `maxTokens`. */
  predicate Fits(curChars: nat, s: string, maxTokens: int)
  {
    2 * (curChars + |s|) <= 7 * maxTokens
  }

  /** The block must be closed before `s` is added. */
  predicate MustClose(cur: seq<string>, s: string, perBlock: int, maxTokens: int)
  {
    cur != [] && (|cur| >= perBlock || !Fits(Chars(cur), s, maxTokens))
  }

  /**
   * The groups of sentences the loop of `slice_text` builds from the
   * sentences at `i` on, with `cur` the open block.
   */
  function GroupsFrom(ss: seq<string>, i: nat, cur: seq<string>, perBlock: int, maxTokens: int): (r: seq<seq<string>>)
    requires i <= |ss|
    decreases |ss| - i
  {
    if i == |ss| then (if cur == [] then [] else [cur])
    else if MustClose(cur, ss[i], perBlock, maxTokens) then [cur] + GroupsFrom(ss, i + 1, [ss[i]], perBlock, maxTokens)
    else GroupsFrom(ss, i + 1, cur + [ss[i]], perBlock, maxTokens)
  }

  function Groups(ss: seq<string>, perBlock: int, maxTokens: int): seq<seq<string>>
  {
    GroupsFrom(ss, 0, [], perBlock, maxTokens)
  }

  function Flatten(gs: seq<seq<string>>): seq<string>
  {
    if gs == [] then [] else gs[0] + Flatten(gs[1..])
  }

  /** Each group joined with single spaces. */
  function JoinEach(gs: seq<seq<string>>): (r: seq<string>)
    ensures |r| == |gs|
    ensures forall k :: 0 <= k < |gs| ==> r[k] == Join(gs[k], " ")
  {
    if gs == [] then [] else [Join(gs[0], " ")] + JoinEach(gs[1..])
  }

  lemma JoinEachAppend(a: seq<seq<string>>, b: seq<seq<string>>)
    ensures JoinEach(a + b) == JoinEach(a) + JoinEach(b)
  {
  }

  // ---------------------------------------------------------------------
  // What the greedy packing guarantees
  // ---------------------------------------------------------------------

  /** No sentence is dropped, split or reordered. */
  lemma {:induction false} GroupsFromFlatten(ss: seq<string>, i: nat, cur: seq<string>, perBlock: int, maxTokens: int)
    requires i <= |ss|
    ensures Flatten(GroupsFrom(ss, i, cur, perBlock, maxTokens)) == cur + ss[i..]
    decreases |ss| - i
  {
    if i == |ss| {
      assert ss[i..] == [];
    } else {
      assert ss[i..] == [ss[i]] + ss[i + 1..];
      GroupsFromFlatten(ss, i + 1, [ss[i]], perBlock, maxTokens);
      GroupsFromFlatten(ss, i + 1, cur + [ss[i]], perBlock, maxTokens);
      var rest := GroupsFrom(ss, i + 1, [ss[i]], perBlock, maxTokens);
      if MustClose(cur, ss[i], perBlock, maxTokens) {
        assert ([cur] + rest)[1..] == rest;
      }
    }
  }

  /** A group that the loop could have built: each sentence after the first was allowed in. */
  predicate Packed(g: seq<string>, perBlock: int, maxTokens: int)
  {
    g != [] && forall j :: 1 <= j < |g| ==> !MustClose(g[..j], g[j], perBlock, maxTokens)
  }

  lemma PackedSnoc(g: seq<string>, s: string, perBlock: int, maxTokens: int)
    requires g == [] || Packed(g, perBlock, maxTokens)
    requires !MustClose(g, s, perBlock, maxTokens)
    ensures Packed(g + [s], perBlock, maxTokens)
  {
    var h := g + [s];
    forall j | 1 <= j < |h|
      ensures !MustClose(h[..j], h[j], perBlock, maxTokens)
    {
      if j < |g| {
        assert h[..j] == g[..j];
      } else {
        assert h[..j] == g;
      }
    }
  }

  /**
   * Every group is packed, and every group but the last was closed
   * because the next sentence had to start a new block.
   */
  lemma {:induction false} GroupsFromPacked(ss: seq<string>, i: nat, cur: seq<string>, perBlock: int, maxTokens: int)
    requires i <= |ss|
    requires cur == [] || Packed(cur, perBlock, maxTokens)
    ensures var gs := GroupsFrom(ss, i, cur, perBlock, maxTokens);
      && (forall k :: 0 <= k < |gs| ==> Packed(gs[k], perBlock, maxTokens))
      && (forall k :: 1 <= k < |gs| ==> gs[k] != [] && MustClose(gs[k - 1], gs[k][0], perBlock, maxTokens))
    decreases |ss| - i
  {
    if i < |ss| {
      if MustClose(cur, ss[i], perBlock, maxTokens) {
        assert Packed([ss[i]], perBlock, maxTokens);
        GroupsFromPacked(ss, i + 1, [ss[i]], perBlock, maxTokens);
        GroupsFromFirst(ss, i + 1, [ss[i]], perBlock, maxTokens);
        var rest := GroupsFrom(ss, i + 1, [ss[i]], perBlock, maxTokens);
        assert GroupsFrom(ss, i, cur, perBlock, maxTokens) == [cur] + rest;
      } else {
        PackedSnoc(cur, ss[i], perBlock, maxTokens);
        GroupsFromPacked(ss, i + 1, cur + [ss[i]], perBlock, maxTokens);
        assert GroupsFrom(ss, i, cur, perBlock, maxTokens) == GroupsFrom(ss, i + 1, cur + [ss[i]], perBlock, maxTokens);
      }
    }
  }

  /** The first group starts with the open block. */
  lemma {:induction false} GroupsFromFirst(ss: seq<string>, i: nat, cur: seq<string>, perBlock: int, maxTokens: int)
    requires i <= |ss| && cur != []
    ensures var gs := GroupsFrom(ss, i, cur, perBlock, maxTokens);
      gs != [] && gs[0] != [] && gs[0][0] == cur[0]
    decreases |ss| - i
  {
    if i < |ss| && !MustClose(cur, ss[i], perBlock, maxTokens) {
      GroupsFromFirst(ss, i + 1, cur + [ss[i]], perBlock, maxTokens);
    }
  }

  /** A packed group holds at most `max(1, sentences_per_block)` sentences. */
  lemma PackedSize(g: seq<string>, perBlock: int, maxTokens: int)
    requires Packed(g, perBlock, maxTokens)
    ensures |g| <= Max(1, perBlock)
  {
    forall j | 1 <= j < |g|
      ensures |g[..j]| < perBlock
    {
      assert !MustClose(g[..j], g[j], perBlock, maxTokens);
    }
    if |g| > 1 {
      assert |g[..|g| - 1]| < perBlock;
    }
  }

  /** Joining the blocks gives the sentences joined: the blocks hold exactly the sentences, in order. */
  lemma {:induction false} JoinFlatten(gs: seq<seq<string>>)
    requires forall k :: 0 <= k < |gs| ==> gs[k] != []
    ensures Join(JoinEach(gs), " ") == Join(Flatten(gs), " ")
  {
    if |gs| > 1 {
      JoinFlatten(gs[1..]);
      assert Flatten(gs[1..]) != [] by {
        assert Flatten(gs[1..]) == gs[1] + Flatten(gs[2..]);
      }
      JoinConcat(gs[0], Flatten(gs[1..]), " ");
    } else if |gs| == 1 {
      assert Flatten(gs[1..]) == [];
      assert Flatten(gs) == gs[0];
      assert JoinEach(gs) == [Join(gs[0], " ")];
    }
  }

  // ---------------------------------------------------------------------
  // `slice_text`
  // ---------------------------------------------------------------------

  lemma PrefixOfSnoc<T>(a: seq<T>, x: T)
    ensures (a + [x])[..|a|] == a
  {
  }

  /** One turn of the loop keeps the groups closed so far plus the groups still to come equal to all groups. */
  lemma SliceStep(ss: seq<string>, i: nat, cur: seq<string>, closed: seq<seq<string>>, perBlock: int, maxTokens: int)
    requires i < |ss|
    requires closed + GroupsFrom(ss, i, cur, perBlock, maxTokens) == Groups(ss, perBlock, maxTokens)
    ensures MustClose(cur, ss[i], perBlock, maxTokens) ==>
      (closed + [cur]) + GroupsFrom(ss, i + 1, [ss[i]], perBlock, maxTokens) == Groups(ss, perBlock, maxTokens)
    ensures !MustClose(cur, ss[i], perBlock, maxTokens) ==>
      closed + GroupsFrom(ss, i + 1, cur + [ss[i]], perBlock, maxTokens) == Groups(ss, perBlock, maxTokens)
  {
    ConcatAssoc(closed, [cur], GroupsFrom(ss, i + 1, [ss[i]], perBlock, maxTokens));
  }

  /**
   * `SentenceSlicingService.slice_text` with the configured
   * `sentences_per_block` and `max_tokens_per_block`.
   */
  method SliceText(text: string, perBlock: int, maxTokens: int) returns (blocks: seq<string>)
    ensures IsBlank(text) ==> blocks == []
    ensures !IsBlank(text) && Sentences(Strip(text)) == [] ==> blocks == [Strip(text)]
    ensures !IsBlank(text) && Sentences(Strip(text)) != [] ==>
      blocks == JoinEach(Groups(Sentences(Strip(text)), perBlock, maxTokens))
  {
    if IsBlank(text) {
      return [];
    }
    var sentences := Sentences(Strip(text));
    if sentences == [] {
      return [Strip(text)];
    }
    blocks := PackSentences(sentences, perBlock, maxTokens);
  }

  /** The loop of `slice_text`: sentences packed into blocks, each joined with spaces. */
  method PackSentences(sentences: seq<string>, perBlock: int, maxTokens: int) returns (blocks: seq<string>)
    ensures blocks == JoinEach(Groups(sentences, perBlock, maxTokens))
  {
    blocks := [];
    ghost var closed: seq<seq<string>> := [];
    var cur: seq<string> := [];
    var curChars := 0;
    var i := 0;
    while i < |sentences|
      invariant i <= |sentences|
      invariant curChars == Chars(cur)
      invariant blocks == JoinEach(closed)
      invariant closed + GroupsFrom(sentences, i, cur, perBlock, maxTokens) == Groups(sentences, perBlock, maxTokens)
    {
      var sentence := sentences[i];
      SliceStep(sentences, i, cur, closed, perBlock, maxTokens);
      if cur != [] && (|cur| >= perBlock || 2 * (curChars + |sentence|) > 7 * maxTokens) {
        JoinEachAppend(closed, [cur]);
        blocks := blocks + [Join(cur, " ")];
        closed := closed + [cur];
        cur := [];
        curChars := 0;
      }
      PrefixOfSnoc(cur, sentence);
      cur := cur + [sentence];
      curChars := curChars + |sentence|;
      i := i + 1;
    }
    if cur != [] {
      JoinEachAppend(closed, [cur]);
      blocks := blocks + [Join(cur, " ")];
      closed := closed + [cur];
    }
    assert closed == Groups(sentences, perBlock, maxTokens);
  }

  /**
   * What the blocks of a non-blank text satisfy: each block is non-empty
   * and trimmed, holds at most `max(1, sentences_per_block)` sentences,
   * takes every sentence it could, and the blocks joined with spaces are
   * the sentences joined with spaces.
   */
  lemma SliceSpec(ss: seq<string>, perBlock: int, maxTokens: int)
    requires forall k :: 0 <= k < |ss| ==> Trimmed(ss[k])
    ensures var gs := Groups(ss, perBlock, maxTokens);
      && Flatten(gs) == ss
      && (forall k :: 0 <= k < |gs| ==> Packed(gs[k], perBlock, maxTokens) && |gs[k]| <= Max(1, perBlock))
      && (forall k :: 1 <= k < |gs| ==> MustClose(gs[k - 1], gs[k][0], perBlock, maxTokens))
      && (forall k :: 0 <= k < |gs| ==> Trimmed(JoinEach(gs)[k]))
      && Join(JoinEach(gs), " ") == Join(ss, " ")
  {
    var gs := Groups(ss, perBlock, maxTokens);
    GroupsFromFlatten(ss, 0, [], perBlock, maxTokens);
    assert ss[0..] == ss;
    GroupsFromPacked(ss, 0, [], perBlock, maxTokens);
    forall k | 0 <= k < |gs|
      ensures |gs[k]| <= Max(1, perBlock) && Trimmed(JoinEach(gs)[k])
    {
      PackedSize(gs[k], perBlock, maxTokens);
      FlattenMember(gs, k);
      JoinTrimmed(gs[k]);
    }
    JoinFlatten(gs);
  }

  /** Every sentence of a group is a sentence of the flattened groups. */
  lemma {:induction false} FlattenMember(gs: seq<seq<string>>, k: nat)
    requires k < |gs|
    ensures forall j :: 0 <= j < |gs[k]| ==> gs[k][j] in Flatten(gs)
  {
    if k > 0 {
      FlattenMember(gs[1..], k - 1);
    }
  }
}
