/**
 * Orderings the back end relies on: `sorted(set(ids))` for id lists,
 * Python's stable `sort(key=..., reverse=True)` by a numeric key, and
 * `sorted` on strings.
 */
module Sorting {

  predicate StrictlyIncreasing(s: seq<int>)
  {
    forall i, j :: 0 <= i < j < |s| ==> s[i] < s[j]
  }

  /** Insert `x` into a strictly increasing list unless it is already there. */
  function InsertUnique(s: seq<int>, x: int): (r: seq<int>)
    requires StrictlyIncreasing(s)
    ensures StrictlyIncreasing(r)
    ensures forall y :: y in r <==> y in s || y == x
  {
    if s == [] then [x]
    else if x < s[0] then [x] + s
    else if x == s[0] then s
    else
      var rest := InsertUnique(s[1..], x);
      assert forall y :: y in s <==> y == s[0] || y in s[1..];
      forall i | 0 <= i < |rest| ensures s[0] < rest[i] {
        assert rest[i] in rest;
        if rest[i] != x {
          var k :| 0 <= k < |s[1..]| && s[1..][k] == rest[i];
          assert s[k + 1] == rest[i];
        }
      }
      [s[0]] + rest
  }

  /** `sorted(set(s))`: the distinct elements of `s` in increasing order. */
  function SortedSet(s: seq<int>): (r: seq<int>)
    ensures StrictlyIncreasing(r)
    ensures forall y :: y in r <==> y in s
  {
    if s == [] then []
    else
      var prefix := s[..|s| - 1];
      assert forall y :: y in s <==> y in prefix || y == s[|s| - 1] by {
        assert s == prefix + [s[|s| - 1]];
      }
      InsertUnique(SortedSet(prefix), s[|s| - 1])
  }

  /** All id lists of `ls` concatenated. */
  function Flatten(ls: seq<seq<int>>): (r: seq<int>)
    ensures forall y :: y in r <==> exists i :: 0 <= i < |ls| && y in ls[i]
  {
    if ls == [] then []
    else
      var r := Flatten(ls[..|ls| - 1]) + ls[|ls| - 1];
      assert forall i :: 0 <= i < |ls| - 1 ==> ls[i] == ls[..|ls| - 1][i];
      r
  }

  // ---------------------------------------------------------------------
  // Stable descending sort by a key
  // ---------------------------------------------------------------------

  predicate SortedDesc<T>(s: seq<T>, key: T -> real)
  {
    forall i, j :: 0 <= i < j < |s| ==> key(s[i]) >= key(s[j])
  }

  /** Insert `x` after every element whose key is at least `key(x)`. */
  function InsertDesc<T>(s: seq<T>, x: T, key: T -> real): (r: seq<T>)
    requires SortedDesc(s, key)
    ensures SortedDesc(r, key)
    ensures multiset(r) == multiset(s) + multiset{x}
    ensures |r| == |s| + 1
  {
    if s == [] then [x]
    else
      var pre := s[..|s| - 1];
      var last := s[|s| - 1];
      assert s == pre + [last];
      if key(last) >= key(x) then
        AppendLeast(s, x, key);
        s + [x]
      else
        var rest := InsertDesc(pre, x, key);
        AppendBelow(pre, last, x, rest, key);
        rest + [last]
  }

  lemma AppendLeast<T>(s: seq<T>, x: T, key: T -> real)
    requires s != [] && SortedDesc(s, key) && key(s[|s| - 1]) >= key(x)
    ensures SortedDesc(s + [x], key)
  {
    var t := s + [x];
    forall i, j | 0 <= i < j < |t| ensures key(t[i]) >= key(t[j]) {
      if j == |s| {
        assert key(s[i]) >= key(s[|s| - 1]);
      } else {
        assert t[i] == s[i] && t[j] == s[j];
      }
    }
  }

  lemma AppendBelow<T>(pre: seq<T>, last: T, x: T, rest: seq<T>, key: T -> real)
    requires SortedDesc(pre + [last], key) && key(last) < key(x)
    requires SortedDesc(rest, key) && multiset(rest) == multiset(pre) + multiset{x}
    ensures SortedDesc(rest + [last], key)
  {
    var s := pre + [last];
    forall i | 0 <= i < |rest| ensures key(rest[i]) >= key(last) {
      assert rest[i] in multiset(rest);
      if rest[i] != x {
        assert rest[i] in multiset(pre);
        var k :| 0 <= k < |pre| && pre[k] == rest[i];
        assert s[k] == pre[k] && s[|pre|] == last;
      }
    }
    var t := rest + [last];
    forall i, j | 0 <= i < j < |t| ensures key(t[i]) >= key(t[j]) {
      if j == |rest| {
        assert t[i] == rest[i];
      } else {
        assert t[i] == rest[i] && t[j] == rest[j];
      }
    }
  }

  /** `sorted(s, key=key, reverse=True)`: stable, so equal keys keep their input order. */
  function SortDesc<T>(s: seq<T>, key: T -> real): (r: seq<T>)
    ensures SortedDesc(r, key)
    ensures multiset(r) == multiset(s)
    ensures |r| == |s|
  {
    if s == [] then []
    else
      assert s == s[..|s| - 1] + [s[|s| - 1]];
      InsertDesc(SortDesc(s[..|s| - 1], key), s[|s| - 1], key)
  }

  /** The elements whose key is `v`, in their order in `s`. */
  function KeyClass<T>(s: seq<T>, key: T -> real, v: real): (r: seq<T>)
    ensures |r| <= |s|
  {
    if s == [] then []
    else KeyClass(s[..|s| - 1], key, v) + (if key(s[|s| - 1]) == v then [s[|s| - 1]] else [])
  }

  /** Inserting `x` puts it after every element with its key. */
  lemma {:induction false} InsertDescStable<T>(s: seq<T>, x: T, key: T -> real, v: real)
    requires SortedDesc(s, key)
    ensures KeyClass(InsertDesc(s, x, key), key, v) == KeyClass(s, key, v) + (if key(x) == v then [x] else [])
    decreases |s|
  {
    if s != [] {
      var pre := s[..|s| - 1];
      var last := s[|s| - 1];
      assert s == pre + [last];
      if key(last) >= key(x) {
        assert (s + [x])[..|s|] == s;
      } else {
        assert SortedDesc(pre, key);
        var rest := InsertDesc(pre, x, key);
        InsertDescStable(pre, x, key, v);
        assert (rest + [last])[..|rest|] == rest;
      }
    }
  }

  /** The sort is stable: the elements of each key keep their input order. */
  lemma {:induction false} SortDescStable<T>(s: seq<T>, key: T -> real, v: real)
    ensures KeyClass(SortDesc(s, key), key, v) == KeyClass(s, key, v)
    decreases |s|
  {
    if s != [] {
      var pre := s[..|s| - 1];
      SortDescStable(pre, key, v);
      InsertDescStable(SortDesc(pre, key), s[|s| - 1], key, v);
    }
  }

  // ---------------------------------------------------------------------
  // Strings in Python's order
  // ---------------------------------------------------------------------

  /** Python's `a <= b` on strings: lexicographic by code point. */
  predicate LexLe(a: string, b: string)
  {
    a == [] || (b != [] && (a[0] < b[0] || (a[0] == b[0] && LexLe(a[1..], b[1..]))))
  }

  lemma {:induction false} LexLeTotal(a: string, b: string)
    ensures LexLe(a, b) || LexLe(b, a)
  {
    if a != [] && b != [] && a[0] == b[0] {
      LexLeTotal(a[1..], b[1..]);
    }
  }

  predicate SortedStrings(s: seq<string>)
  {
    forall i :: 0 <= i < |s| - 1 ==> LexLe(s[i], s[i + 1])
  }

  function InsertString(s: seq<string>, x: string): (r: seq<string>)
    requires SortedStrings(s)
    ensures SortedStrings(r)
    ensures multiset(r) == multiset(s) + multiset{x}
    ensures |r| == |s| + 1
    ensures r[0] == x || (s != [] && r[0] == s[0])
  {
    if s == [] then [x]
    else if LexLe(x, s[0]) then [x] + s
    else
      LexLeTotal(x, s[0]);
      assert s == [s[0]] + s[1..];
      [s[0]] + InsertString(s[1..], x)
  }

  /** `sorted(s)` for a list of strings: an ordered permutation. */
  function SortStrings(s: seq<string>): (r: seq<string>)
    ensures SortedStrings(r)
    ensures multiset(r) == multiset(s)
  {
    if s == [] then []
    else
      assert s == s[..|s| - 1] + [s[|s| - 1]];
      InsertString(SortStrings(s[..|s| - 1]), s[|s| - 1])
  }
}
