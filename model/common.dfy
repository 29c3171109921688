/**
 * Shared vocabulary of the model: optional values, the character classes and
 * string helpers the back end takes from Python's `str`, and a stable
 * descending sort (Python's `sorted(..., reverse=True)` / `list.sort`).
 *
 * Characters are classified as ASCII; Python's Unicode-aware `str.lower`,
 * `str.isalpha`, `str.isspace` and `\s` agree with these on ASCII text,
 * and differ on the rest (see the character classes below).
 */
module Common {

  datatype Option<T> = None | Some(value: T)
  {
    predicate IsSome() { Some? }

    function GetOr(default: T): T
    {
      if Some? then value else default
    }
  }

  /** The value of a call that may raise: `Failure` carries the exception's kind. */
  datatype Outcome<T> = Success(value: T) | Failure(error: string)

  /** `d.get(key, default)` */
  function Get<T>(o: Option<T>, default: T): T
  {
    if o.Some? then o.value else default
  }

  /** Python truthiness of an optional string: `None` and `""` are falsy. */
  predicate Truthy(s: Option<string>)
  {
    s.Some? && s.value != ""
  }

  // ---------------------------------------------------------------------
  // Characters
  // ---------------------------------------------------------------------

  predicate IsUpperChar(c: char) { 'A' <= c <= 'Z' }
  predicate IsLowerChar(c: char) { 'a' <= c <= 'z' }
  predicate IsAlphaChar(c: char) { IsUpperChar(c) || IsLowerChar(c) }
  predicate IsDigitChar(c: char) { '0' <= c <= '9' }
  predicate IsAlnumChar(c: char) { IsAlphaChar(c) || IsDigitChar(c) }

  /**
   * The characters `str.strip()`, `str.split()` and `\s` treat as
   * whitespace, ASCII part: space, tab to carriage return, and the four
   * separators 0x1C to 0x1F.
   */
  predicate IsSpaceChar(c: char)
  {
    c == ' ' || c == '\t' || c == '\n' || c == '\r' || c == '\U{B}' || c == '\U{C}'
    || ('\U{1C}' <= c <= '\U{1F}')
  }

  function ToLowerChar(c: char): (r: char)
    ensures !IsUpperChar(r)
    ensures IsAlphaChar(c) <==> IsAlphaChar(r)
    ensures IsSpaceChar(c) <==> IsSpaceChar(r)
    ensures IsUpperChar(c) ==> r as int == c as int + 32
    ensures !IsUpperChar(c) ==> r == c
  {
    if IsUpperChar(c) then (c as int + 32) as char else c
  }

  function ToUpperChar(c: char): (r: char)
    ensures !IsLowerChar(r)
    ensures IsLowerChar(c) ==> r as int == c as int - 32
    ensures !IsLowerChar(c) ==> r == c
  {
    if IsLowerChar(c) then (c as int - 32) as char else c
  }

  // ---------------------------------------------------------------------
  // Strings
  // ---------------------------------------------------------------------

  /** `s.lower()` */
  function Lower(s: string): (r: string)
    ensures |r| == |s|
    ensures forall i :: 0 <= i < |s| ==> r[i] == ToLowerChar(s[i])
  {
    if s == [] then [] else [ToLowerChar(s[0])] + Lower(s[1..])
  }

  /** Every string of a list, lowercased. */
  function LowerAll(es: seq<string>): (r: seq<string>)
    ensures |r| == |es|
    ensures forall i :: 0 <= i < |es| ==> r[i] == Lower(es[i])
  {
    if es == [] then [] else [Lower(es[0])] + LowerAll(es[1..])
  }

  /** `lower()` works character by character, so it distributes over concatenation. */
  lemma LowerAppend(a: string, b: string)
    ensures Lower(a + b) == Lower(a) + Lower(b)
  {
    var x, y := Lower(a + b), Lower(a) + Lower(b);
    assert |x| == |y|;
    forall i | 0 <= i < |x|
      ensures x[i] == y[i]
    {
      if i < |a| {
        assert (a + b)[i] == a[i];
      } else {
        assert (a + b)[i] == b[i - |a|];
      }
    }
  }

  /** `s.upper()` */
  function Upper(s: string): (r: string)
    ensures |r| == |s|
    ensures forall i :: 0 <= i < |s| ==> r[i] == ToUpperChar(s[i])
  {
    if s == [] then [] else [ToUpperChar(s[0])] + Upper(s[1..])
  }

  lemma LowerIdempotent(s: string)
    ensures Lower(Lower(s)) == Lower(s)
  {
  }

  lemma UpperIdempotent(s: string)
    ensures Upper(Upper(s)) == Upper(s)
  {
  }

  predicate IsLowerString(s: string)
  {
    forall i :: 0 <= i < |s| ==> !IsUpperChar(s[i])
  }

  /** A text without capitals is its own lowercase. */
  lemma LowerOfLowerString(s: string)
    requires IsLowerString(s)
    ensures Lower(s) == s
  {
    assert forall i :: 0 <= i < |s| ==> Lower(s)[i] == s[i];
  }

  /** `s.lstrip()` */
  function StripLeft(s: string): (r: string)
    ensures |r| <= |s| && r == s[|s| - |r|..]
    ensures r != [] ==> !IsSpaceChar(r[0])
    ensures forall i :: 0 <= i < |s| - |r| ==> IsSpaceChar(s[i])
  {
    if s != [] && IsSpaceChar(s[0]) then
      var r := StripLeft(s[1..]);
      assert s[1..][|s| - 1 - |r|..] == s[|s| - |r|..];
      assert forall i :: 1 <= i < |s| - |r| ==> s[i] == s[1..][i - 1];
      r
    else s
  }

  /** `s.rstrip()` */
  function StripRight(s: string): (r: string)
    ensures |r| <= |s| && r == s[..|r|]
    ensures r != [] ==> !IsSpaceChar(r[|r| - 1])
    ensures forall i :: |r| <= i < |s| ==> IsSpaceChar(s[i])
  {
    if s != [] && IsSpaceChar(s[|s| - 1]) then StripRight(s[..|s| - 1]) else s
  }

  /** `s.strip()` */
  function Strip(s: string): (r: string)
    ensures |r| <= |s|
    ensures r != [] ==> !IsSpaceChar(r[0]) && !IsSpaceChar(r[|r| - 1])
  {
    StripRight(StripLeft(s))
  }

  /** `not s.strip()`: the string is empty or only whitespace. */
  predicate IsBlank(s: string)
  {
    forall i :: 0 <= i < |s| ==> IsSpaceChar(s[i])
  }

  /** `rstrip()` leaves a string that does not end in whitespace as it is. */
  lemma StripRightKept(s: string)
    requires s != [] ==> !IsSpaceChar(s[|s| - 1])
    ensures StripRight(s) == s
  {
  }

  lemma StripLeftBlank(s: string)
    ensures StripLeft(s) == [] <==> IsBlank(s)
  {
    var r := StripLeft(s);
    if r != [] {
      assert r[0] == s[|s| - |r|];
    }
  }

  lemma StripBlank(s: string)
    ensures Strip(s) == [] <==> IsBlank(s)
  {
    StripLeftBlank(s);
  }

  /** A string that already has no surrounding whitespace is its own `strip()`. */
  lemma StripTrimmed(s: string)
    requires s != [] ==> !IsSpaceChar(s[0]) && !IsSpaceChar(s[|s| - 1])
    ensures Strip(s) == s
  {
  }

  /** `s.strip().lower()` is unaffected by applying it twice. */
  lemma StripLowerIdempotent(s: string)
    ensures Lower(Strip(Lower(Strip(s)))) == Lower(Strip(s))
  {
    var t := Lower(Strip(s));
    StripTrimmed(t);
    LowerIdempotent(Strip(s));
  }

  /** `sub` occurs in `s` starting at index `i`. */
  predicate OccursAt(s: string, sub: string, i: int)
  {
    0 <= i <= |s| - |sub| && s[i..i + |sub|] == sub
  }

  /** `sub in s` for strings. */
  predicate Contains(s: string, sub: string)
  {
    exists i :: 0 <= i <= |s| - |sub| && OccursAt(s, sub, i)
  }

  /** `s.find(sub, i)`: the first start of `sub` at or after `i`, or -1. */
  function StrFindFrom(s: string, sub: string, i: nat): (r: int)
    requires i <= |s|
    ensures r == -1 ==> forall j :: i <= j <= |s| - |sub| ==> !OccursAt(s, sub, j)
    ensures r != -1 ==> i <= r && OccursAt(s, sub, r) && forall j :: i <= j < r ==> !OccursAt(s, sub, j)
    decreases |s| - i
  {
    if i + |sub| > |s| then -1
    else if OccursAt(s, sub, i) then i
    else StrFindFrom(s, sub, i + 1)
  }

  /** `s.find(sub)`: the first start of `sub`, or -1 exactly when it does not occur. */
  function StrFind(s: string, sub: string): (r: int)
    ensures r == -1 <==> !Contains(s, sub)
    ensures r != -1 ==> 0 <= r && OccursAt(s, sub, r) && forall j :: 0 <= j < r ==> !OccursAt(s, sub, j)
  {
    StrFindFrom(s, sub, 0)
  }

  predicate ContainsChar(s: string, c: char)
  {
    exists i :: 0 <= i < |s| && s[i] == c
  }

  /** `s.startswith(p)` */
  predicate StartsWith(s: string, p: string)
  {
    |p| <= |s| && s[..|p|] == p
  }

  /** `s.endswith(p)` */
  predicate EndsWith(s: string, p: string)
  {
    |p| <= |s| && s[|s| - |p|..] == p
  }

  /** `sep.join(parts)` */
  function Join(parts: seq<string>, sep: string): (r: string)
    ensures parts == [] ==> r == ""
    ensures |parts| == 1 ==> r == parts[0]
  {
    if parts == [] then ""
    else if |parts| == 1 then parts[0]
    else parts[0] + sep + Join(parts[1..], sep)
  }

  lemma {:induction false} JoinAppend(parts: seq<string>, p: string, sep: string)
    requires parts != []
    ensures Join(parts + [p], sep) == Join(parts, sep) + sep + p
  {
    if |parts| == 1 {
      assert (parts + [p])[1..] == [p];
    } else {
      assert (parts + [p])[1..] == parts[1..] + [p];
      JoinAppend(parts[1..], p, sep);
    }
  }

  /** Number of occurrences of `c` in `s`. */
  function CountChar(s: string, c: char): (n: nat)
    ensures n <= |s|
    ensures n == 0 <==> !ContainsChar(s, c)
  {
    if s == [] then 0
    else
      var rest := CountChar(s[1..], c);
      assert ContainsChar(s, c) <==> s[0] == c || ContainsChar(s[1..], c) by {
        if ContainsChar(s[1..], c) {
          var i :| 0 <= i < |s[1..]| && s[1..][i] == c;
          assert s[i + 1] == c;
        }
        if ContainsChar(s, c) && s[0] != c {
          var i :| 0 <= i < |s| && s[i] == c;
          assert s[1..][i - 1] == c;
        }
      }
      (if s[0] == c then 1 else 0) + rest
  }

  /** The non-whitespace characters of a string, in order. */
  function NonSpace(s: string): string
  {
    if s == [] then [] else (if IsSpaceChar(s[0]) then [] else [s[0]]) + NonSpace(s[1..])
  }

  function Concat(ss: seq<string>): string
  {
    if ss == [] then [] else ss[0] + Concat(ss[1..])
  }

  lemma ConcatAssoc<T>(a: seq<T>, b: seq<T>, c: seq<T>)
    ensures (a + b) + c == a + (b + c)
  {
  }

  lemma SplitJoin<T>(s: seq<T>, i: nat)
    requires i <= |s|
    ensures s[..i] + s[i..] == s
  {
  }

  /** Membership in a non-empty sequence: in all but the last element, or the last one. */
  lemma InSnoc<T>(s: seq<T>, x: T)
    requires s != []
    ensures x in s <==> x in s[..|s| - 1] || x == s[|s| - 1]
  {
    assert s == s[..|s| - 1] + [s[|s| - 1]];
  }

  lemma InConcat<T>(a: seq<T>, b: seq<T>, x: T)
    ensures x in a + b <==> x in a || x in b
  {
  }

  lemma IndexConcatLeft<T>(a: seq<T>, b: seq<T>, j: nat)
    requires j < |a|
    ensures (a + b)[j] == a[j]
  {
  }

  lemma ConcatCons(s: string, rest: seq<string>)
    ensures Concat([s] + rest) == s + Concat(rest)
  {
    assert ([s] + rest)[1..] == rest;
  }

  lemma ConcatOne(s: string)
    ensures Concat([s]) == s
  {
    assert [s][1..] == [];
    assert Concat([s]) == s + Concat([]);
  }

  lemma {:induction false} NonSpaceAppend(a: string, b: string)
    ensures NonSpace(a + b) == NonSpace(a) + NonSpace(b)
  {
    if a == [] {
      assert a + b == b;
    } else {
      assert (a + b)[1..] == a[1..] + b;
      NonSpaceAppend(a[1..], b);
    }
  }

  lemma {:induction false} NonSpaceBlank(s: string)
    requires IsBlank(s)
    ensures NonSpace(s) == []
  {
    if s != [] {
      NonSpaceBlank(s[1..]);
    }
  }

  lemma {:induction false} NonSpaceStripLeft(s: string)
    ensures NonSpace(StripLeft(s)) == NonSpace(s)
    decreases |s|
  {
    if s != [] && IsSpaceChar(s[0]) {
      NonSpaceStripLeft(s[1..]);
    }
  }

  lemma NonSpaceStripRight(s: string)
    ensures NonSpace(StripRight(s)) == NonSpace(s)
  {
    var r := StripRight(s);
    assert s == r + s[|r|..];
    NonSpaceAppend(r, s[|r|..]);
    NonSpaceBlank(s[|r|..]);
  }

  /** `strip()` only removes whitespace. */
  lemma NonSpaceStrip(s: string)
    ensures NonSpace(Strip(s)) == NonSpace(s)
  {
    NonSpaceStripLeft(s);
    NonSpaceStripRight(StripLeft(s));
  }

  /** All characters are ASCII digits and there is at least one (`str.isdigit`). */
  predicate IsDigits(s: string)
  {
    s != [] && forall i :: 0 <= i < |s| ==> IsDigitChar(s[i])
  }

  /** `s[:n]` in Python, where a negative `n` counts from the end. */
  function PyPrefix<T>(s: seq<T>, n: int): (r: seq<T>)
    ensures |r| <= |s| && r == s[..|r|]
    ensures n >= 0 ==> |r| == (if n <= |s| then n else |s|)
    ensures n < 0 ==> |r| == (if |s| + n >= 0 then |s| + n else 0)
  {
    if n >= |s| then s
    else if n >= 0 then s[..n]
    else if |s| + n >= 0 then s[..|s| + n]
    else []
  }

  function Max(a: int, b: int): int { if a >= b then a else b }
  function Min(a: int, b: int): int { if a <= b then a else b }
  function MinReal(a: real, b: real): real { if a <= b then a else b }
  function MaxReal(a: real, b: real): real { if a >= b then a else b }

  /** Scaling a non-negative integer by a factor of at least 1 and truncating never lowers it. */
  lemma TruncScaleAtLeast(c: int, f: real)
    requires 0 <= c && 1.0 <= f
    ensures TruncReal(c as real * f) >= c
  {
    assert c as real * f - c as real == c as real * (f - 1.0);
    assert c as real * (f - 1.0) >= 0.0;
  }

  /** Python's `int(x)` on a float: truncation toward zero. */
  function TruncReal(x: real): (r: int)
    ensures x >= 0.0 ==> r as real <= x < r as real + 1.0
    ensures x < 0.0 ==> r as real - 1.0 < x <= r as real
  {
    if x >= 0.0 then x.Floor else -((-x).Floor)
  }

  /** The elements of `s` without repetitions, first occurrences kept in order. */
  function Dedup<T(==)>(s: seq<T>): (r: seq<T>)
    ensures forall i :: 0 <= i < |r| ==> r[i] in s
    ensures forall i :: 0 <= i < |s| ==> s[i] in r
    ensures |r| <= |s|
  {
    if s == [] then []
    else
      var rest := Dedup(s[..|s| - 1]);
      if s[|s| - 1] in rest then rest else rest + [s[|s| - 1]]
  }

  predicate Distinct<T(==)>(s: seq<T>)
  {
    forall i, j :: 0 <= i < j < |s| ==> s[i] != s[j]
  }

  /** Appending keeps a list duplicate-free iff the new element is not already there. */
  lemma DistinctSnoc<T>(s: seq<T>, x: T)
    ensures Distinct(s + [x]) <==> Distinct(s) && x !in s
  {
    var t := s + [x];
    if x in s {
      var k :| 0 <= k < |s| && s[k] == x;
      assert t[k] == t[|s|];
    }
    if Distinct(t) {
      forall i, j | 0 <= i < j < |s| ensures s[i] != s[j] {
        assert s[i] == t[i] && s[j] == t[j];
      }
    }
    if Distinct(s) && x !in s {
      forall i, j | 0 <= i < j < |t| ensures t[i] != t[j] {
        if j < |s| { assert t[i] == s[i] && t[j] == s[j]; }
        else { assert t[i] in s; }
      }
    }
  }

  /** A list is duplicate-free iff no element occurs twice in its multiset. */
  lemma {:induction false} DistinctMultiset<T>(s: seq<T>)
    ensures Distinct(s) <==> forall x :: multiset(s)[x] <= 1
  {
    if s != [] {
      var p := s[..|s| - 1];
      var x := s[|s| - 1];
      assert s == p + [x];
      DistinctMultiset(p);
      DistinctSnoc(p, x);
      assert multiset(s) == multiset(p) + multiset{x};
      if Distinct(s) {
        forall y ensures multiset(s)[y] <= 1 {
          assert multiset(p)[y] <= 1;
        }
      }
      if forall y :: multiset(s)[y] <= 1 {
        forall y ensures multiset(p)[y] <= 1 {
          assert multiset(s)[y] <= 1;
        }
        assert multiset(s)[x] <= 1;
      }
    }
  }

  /** A permutation of a duplicate-free list is duplicate-free. */
  lemma DistinctPermutation<T>(a: seq<T>, b: seq<T>)
    requires multiset(a) == multiset(b) && Distinct(a)
    ensures Distinct(b)
  {
    DistinctMultiset(a);
    DistinctMultiset(b);
  }

  lemma {:induction false} DedupDistinct<T>(s: seq<T>)
    ensures Distinct(Dedup(s))
  {
    if s != [] {
      DedupDistinct(s[..|s| - 1]);
    }
  }

  /** `set(s)` for a list of strings. */
  function SetOf(s: seq<string>): (r: set<string>)
    ensures forall x :: x in r <==> x in s
  {
    if s == [] then {}
    else
      assert forall x :: x in s <==> x in s[..|s| - 1] || x == s[|s| - 1] by {
        assert s == s[..|s| - 1] + [s[|s| - 1]];
      }
      SetOf(s[..|s| - 1]) + {s[|s| - 1]}
  }

  /** A list has as many distinct elements as entries iff no entry repeats. */
  lemma {:induction false} SetOfSize(s: seq<string>)
    ensures |SetOf(s)| <= |s|
    ensures |SetOf(s)| == |s| <==> Distinct(s)
  {
    if s != [] {
      var pre := s[..|s| - 1];
      var x := s[|s| - 1];
      assert s == pre + [x];
      SetOfSize(pre);
      DistinctSnoc(pre, x);
      if x in SetOf(pre) {
        assert SetOf(s) == SetOf(pre);
      } else {
        assert SetOf(s) == SetOf(pre) + {x};
      }
    }
  }

  /** A count over a larger positive count is a ratio in [0, 1]. */
  lemma RatioUnit(a: nat, b: nat)
    requires 0 < b && a <= b
    ensures 0.0 <= a as real / b as real <= 1.0
  {
    var q := a as real / b as real;
    assert q * b as real == a as real;
  }

  function SumInts(s: seq<int>): int
  {
    if s == [] then 0 else SumInts(s[..|s| - 1]) + s[|s| - 1]
  }

  function SumReals(s: seq<real>): real
  {
    if s == [] then 0.0 else SumReals(s[..|s| - 1]) + s[|s| - 1]
  }

  /** Largest element of a non-empty list (Python `max`). */
  function MaxOf(s: seq<int>): (m: int)
    requires s != []
    ensures m in s
    ensures forall i :: 0 <= i < |s| ==> s[i] <= m
  {
    if |s| == 1 then s[0]
    else
      var rest := MaxOf(s[..|s| - 1]);
      assert forall i :: 0 <= i < |s| - 1 ==> s[i] == s[..|s| - 1][i];
      Max(rest, s[|s| - 1])
  }

  /** Smallest element of a non-empty list (Python `min`). */
  function MinOf(s: seq<int>): (m: int)
    requires s != []
    ensures m in s
    ensures forall i :: 0 <= i < |s| ==> m <= s[i]
  {
    if |s| == 1 then s[0]
    else
      var rest := MinOf(s[..|s| - 1]);
      assert forall i :: 0 <= i < |s| - 1 ==> s[i] == s[..|s| - 1][i];
      Min(rest, s[|s| - 1])
  }

  // ---------------------------------------------------------------------
  // Rendering values as Python's f-strings do
  // ---------------------------------------------------------------------

  function DigitChar(d: nat): (c: char)
    requires d < 10
    ensures IsDigitChar(c)
  {
    ('0' as int + d) as char
  }

  /** `str(n)` for a non-negative integer. */
  function NatToString(n: nat): (s: string)
    ensures IsDigits(s)
  {
    if n < 10 then [DigitChar(n)] else NatToString(n / 10) + [DigitChar(n % 10)]
  }

  /** `int(s)` for a string of ASCII digits. */
  function DigitsValue(s: string): (n: nat)
    requires forall i :: 0 <= i < |s| ==> IsDigitChar(s[i])
    ensures s == [] ==> n == 0
  {
    if s == [] then 0
    else
      assert IsDigitChar(s[|s| - 1]);
      DigitsValue(s[..|s| - 1]) * 10 + (s[|s| - 1] as int - '0' as int)
  }

  /** `int(str(n)) == n`. */
  lemma {:induction false} DigitsValueOfString(n: nat)
    ensures DigitsValue(NatToString(n)) == n
  {
    var s := NatToString(n);
    if n >= 10 {
      DigitsValueOfString(n / 10);
      assert s[..|s| - 1] == NatToString(n / 10);
    }
  }

  /** `str(i)` for an integer. */
  function IntToString(i: int): string
  {
    if i < 0 then "-" + NatToString(-i) else NatToString(i)
  }

  /** `repr(s)` for a string without quotes or backslashes in it. */
  function Repr(s: string): string { "'" + s + "'" }

  /** `str(xs)` for a list of strings: `['a', 'b']`. */
  function ReprList(xs: seq<string>): string
  {
    "[" + ReprItems(xs) + "]"
  }

  function ReprItems(xs: seq<string>): string
  {
    if xs == [] then ""
    else if |xs| == 1 then Repr(xs[0])
    else Repr(xs[0]) + ", " + ReprItems(xs[1..])
  }
}
