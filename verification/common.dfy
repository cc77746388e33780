// Shared building blocks of the road-risk model: failure-carrying results,
// the few string operations the Python code relies on, order-preserving
// filters and partitions, a stable sort, and plane geometry.

/** Option and Result types standing in for Python's None and exceptions. */
module Wrappers {

  /** Python's `None` versus a present value. */
  datatype Option<+T> = None | Some(value: T) {
    /** The value, or `default` when absent (`x if x is not None else default`). */
    function GetOr(default: T): T {
      match this
      case Some(v) => v
      case None => default
    }
  }

  /** The exceptions the modelled code raises, or turns into HTTP errors. */
  datatype Error =
    | KeyError(key: string)
    | IndexError
    | TypeError
    | AttributeError
    | HttpError(status: int, detail: string)
    | Unavailable(reason: string)

  /** A computation that either returns a value or raises. */
  datatype Result<+T> = Success(value: T) | Failure(error: Error)
}

/** The string operations used by the source: ASCII case folding, prefixes,
    substring tests, whitespace stripping and the first whitespace token. */
module Text {
  import Wrappers

  function LowerChar(c: char): char {
    if 'A' <= c <= 'Z' then (c as int + 32) as char else c
  }

  /** `s.lower()` restricted to ASCII letters. */
  function Lower(s: string): (r: string)
    ensures |r| == |s|
    ensures forall i :: 0 <= i < |s| ==> r[i] == LowerChar(s[i])
  {
    if |s| == 0 then [] else [LowerChar(s[0])] + Lower(s[1..])
  }

  /** `s.startswith(prefix)`. */
  predicate StartsWith(s: string, prefix: string) {
    |prefix| <= |s| && s[..|prefix|] == prefix
  }

  /** `sub in s` for strings. */
  predicate Contains(s: string, sub: string)
    decreases |s|
  {
    StartsWith(s, sub) || (|s| > 0 && Contains(s[1..], sub))
  }

  /** The ASCII whitespace characters that `str.strip()` and `str.split()` remove. */
  predicate IsSpace(c: char) {
    c == ' ' || c == '\t' || c == '\n' || c == '\r' || c as int == 11 || c as int == 12
  }

  function TrimStart(s: string): (r: string)
    ensures |r| <= |s| && r == s[|s| - |r|..]
    ensures |r| == 0 || !IsSpace(r[0])
    ensures forall i :: 0 <= i < |s| - |r| ==> IsSpace(s[i])
  {
    if |s| == 0 || !IsSpace(s[0]) then s else TrimStart(s[1..])
  }

  function TrimEnd(s: string): (r: string)
    ensures |r| <= |s| && r == s[..|r|]
    ensures |r| == 0 || !IsSpace(r[|r| - 1])
    ensures forall i :: |r| <= i < |s| ==> IsSpace(s[i])
  {
    if |s| == 0 || !IsSpace(s[|s| - 1]) then s else TrimEnd(s[..|s| - 1])
  }

  /** `s.strip()`: no whitespace at either end, and only whitespace removed. */
  function Strip(s: string): (r: string)
    ensures |r| <= |s|
    ensures |r| == 0 || (!IsSpace(r[0]) && !IsSpace(r[|r| - 1]))
    ensures |r| == 0 <==> forall i :: 0 <= i < |s| ==> IsSpace(s[i])
  {
    var t := TrimStart(s);
    var r := TrimEnd(t);
    assert |r| == 0 ==> |t| == 0;
    r
  }

  /** The leading run of non-space characters of `s`. */
  function TakeToken(s: string): (r: string)
    ensures |r| <= |s| && r == s[..|r|]
    ensures forall i :: 0 <= i < |r| ==> !IsSpace(r[i])
    ensures |r| == |s| || IsSpace(s[|r|])
  {
    if |s| == 0 || IsSpace(s[0]) then [] else [s[0]] + TakeToken(s[1..])
  }

  /** `s.split()[0]`, or None where Python raises IndexError (no token at all). */
  function FirstToken(s: string): (r: Wrappers.Option<string>)
    ensures r.None? <==> forall i :: 0 <= i < |s| ==> IsSpace(s[i])
    ensures r.Some? ==> |r.value| > 0 && forall i :: 0 <= i < |r.value| ==> !IsSpace(r.value[i])
  {
    var t := TrimStart(s);
    if |t| == 0 then Wrappers.None else Wrappers.Some(TakeToken(t))
  }
}

/** Python's integer conversions: `int()` on strings and floats, `round()`. */
module Numbers {
  import opened Wrappers

  predicate IsDigit(c: char) {
    '0' <= c <= '9'
  }

  predicate AllDigits(s: string) {
    forall i :: 0 <= i < |s| ==> IsDigit(s[i])
  }

  /** The value of a decimal digit string, most significant digit first. */
  function DigitsValue(s: string): nat
    requires AllDigits(s)
  {
    if |s| == 0 then 0 else DigitsValue(s[..|s| - 1]) * 10 + (s[|s| - 1] as int - '0' as int)
  }

  /** An optional sign followed by at least one ASCII digit. */
  predicate IsIntLiteral(s: string) {
    |s| > 0 && (AllDigits(s) || ((s[0] == '-' || s[0] == '+') && |s| > 1 && AllDigits(s[1..])))
  }

  /** `int(s)` on one whitespace-free token: an optional sign and at least one
      ASCII digit; anything else is the ValueError case. */
  function ParseInt(s: string): (r: Option<int>)
    ensures r.Some? ==> |s| > 0
    ensures r.Some? <==> IsIntLiteral(s)
    ensures |s| > 0 && AllDigits(s) ==> r == Some(DigitsValue(s))
  {
    if |s| > 0 && (s[0] == '-' || s[0] == '+') then
      var d := s[1..];
      if |d| > 0 && AllDigits(d) then Some(if s[0] == '-' then 0 - DigitsValue(d) as int else DigitsValue(d) as int) else None
    else if |s| > 0 && AllDigits(s) then Some(DigitsValue(s))
    else None
  }

  /** `str(n)` for a natural number. */
  function NatToString(n: nat): (s: string)
    ensures |s| > 0 && AllDigits(s)
  {
    var d := [(('0' as int) + n % 10) as char];
    if n < 10 then d else NatToString(n / 10) + d
  }

  /** Printing a natural and parsing it back gives the same number. */
  lemma {:induction false} ParseNatToString(n: nat)
    ensures ParseInt(NatToString(n)) == Some(n)
  {
    DigitsOfNat(n);
  }

  lemma {:induction false} DigitsOfNat(n: nat)
    ensures DigitsValue(NatToString(n)) == n
  {
    var s := NatToString(n);
    if n >= 10 {
      DigitsOfNat(n / 10);
      assert s[..|s| - 1] == NatToString(n / 10);
    }
  }

  /** `int(x)` on a float: truncation toward zero. */
  function Trunc(x: real): (r: int)
    ensures 0.0 <= x ==> r as real <= x < r as real + 1.0
    ensures x < 0.0 ==> r as real - 1.0 < x <= r as real
  {
    if x >= 0.0 then x.Floor else -((-x).Floor)
  }

  /** `round(x)`: nearest integer, ties to the even neighbour. */
  function RoundHalfEven(x: real): (r: int)
    ensures x - 0.5 <= r as real <= x + 0.5
    ensures r as real == x - 0.5 || r as real == x + 0.5 ==> r % 2 == 0
  {
    var f := x.Floor;
    var frac := x - f as real;
    if frac < 0.5 then f
    else if frac > 0.5 then f + 1
    else if f % 2 == 0 then f else f + 1
  }
}

/** Order-preserving selection and counting over sequences. */
module Seqs {

  /** `f` applied to each element of `xs`, in order. */
  function MapSeq<T, U>(xs: seq<T>, f: T -> U): (ys: seq<U>)
    ensures |ys| == |xs|
    ensures forall i :: 0 <= i < |xs| ==> ys[i] == f(xs[i])
  {
    if |xs| == 0 then [] else MapSeq(xs[..|xs| - 1], f) + [f(xs[|xs| - 1])]
  }

  /** The elements of `xs` whose key is `k`, in their original order. */
  function Bucket<T, K(==)>(xs: seq<T>, key: T -> K, k: K): (r: seq<T>)
    ensures |r| <= |xs|
    ensures forall i :: 0 <= i < |r| ==> key(r[i]) == k
    ensures forall x :: x in r ==> x in xs
  {
    if |xs| == 0 then []
    else (if key(xs[0]) == k then [xs[0]] else []) + Bucket(xs[1..], key, k)
  }

  /** The elements of `xs` satisfying `p`, in their original order. */
  function Filter<T>(xs: seq<T>, p: T -> bool): (r: seq<T>)
    ensures |r| <= |xs|
    ensures forall i :: 0 <= i < |r| ==> p(r[i])
    ensures forall x :: x in r ==> x in xs
  {
    if |xs| == 0 then []
    else (if p(xs[0]) then [xs[0]] else []) + Filter(xs[1..], p)
  }

  lemma {:induction false} FilterMembership<T>(xs: seq<T>, p: T -> bool, x: T)
    ensures x in Filter(xs, p) <==> x in xs && p(x)
  {
    if |xs| > 0 {
      FilterMembership(xs[1..], p, x);
      assert xs == [xs[0]] + xs[1..];
    }
  }

  lemma {:induction false} FilterConcat<T>(xs: seq<T>, ys: seq<T>, p: T -> bool)
    ensures Filter(xs + ys, p) == Filter(xs, p) + Filter(ys, p)
  {
    if |xs| == 0 {
      assert xs + ys == ys;
    } else {
      assert (xs + ys)[1..] == xs[1..] + ys;
      FilterConcat(xs[1..], ys, p);
    }
  }

  lemma {:induction false} BucketMembership<T, K>(xs: seq<T>, key: T -> K, k: K, x: T)
    ensures x in Bucket(xs, key, k) <==> x in xs && key(x) == k
  {
    if |xs| > 0 {
      BucketMembership(xs[1..], key, k, x);
      assert xs == [xs[0]] + xs[1..];
    }
  }

  lemma {:induction false} BucketConcat<T, K>(xs: seq<T>, ys: seq<T>, key: T -> K, k: K)
    ensures Bucket(xs + ys, key, k) == Bucket(xs, key, k) + Bucket(ys, key, k)
  {
    if |xs| == 0 {
      assert xs + ys == ys;
    } else {
      assert (xs + ys)[1..] == xs[1..] + ys;
      BucketConcat(xs[1..], ys, key, k);
    }
  }

  /** Bucketing a non-empty sequence: the bucket of all but the last element,
      followed by the last element when it has the key. */
  lemma {:induction false} BucketInit<T, K>(xs: seq<T>, key: T -> K, k: K)
    requires |xs| > 0
    ensures Bucket(xs, key, k)
            == Bucket(xs[..|xs| - 1], key, k) + (if key(xs[|xs| - 1]) == k then [xs[|xs| - 1]] else [])
  {
    if |xs| > 1 {
      var init := xs[..|xs| - 1];
      BucketInit(xs[1..], key, k);
      assert xs[1..][..|xs| - 2] == init[1..];
      assert init[0] == xs[0];
    }
  }

  /** A bucket is the filter by any test that agrees with its key, so it
      keeps order and multiplicity. */
  lemma {:induction false} BucketIsFilter<T, K>(xs: seq<T>, key: T -> K, k: K, p: T -> bool)
    requires forall x :: p(x) == (key(x) == k)
    ensures Bucket(xs, key, k) == Filter(xs, p)
  {
    if |xs| > 0 {
      BucketIsFilter(xs[1..], key, k, p);
    }
  }

  /** An element at two positions occurs at least twice. */
  lemma TwiceInMultiset<T>(s: seq<T>, i: int, j: int)
    requires 0 <= i < j < |s| && s[i] == s[j]
    ensures multiset(s)[s[i]] >= 2
  {
    assert s == s[..i] + [s[i]] + s[i + 1..j] + [s[j]] + s[j + 1..];
  }

  /** In a sequence without repeats nothing occurs twice. */
  lemma {:induction false} MultiplicityOfDistinct<T>(xs: seq<T>, x: T)
    requires forall i, j :: 0 <= i < j < |xs| ==> xs[i] != xs[j]
    ensures multiset(xs)[x] <= 1
  {
    if |xs| > 0 {
      assert xs == [xs[0]] + xs[1..];
      assert forall i, j :: 0 <= i < j < |xs[1..]| ==> xs[1..][i] != xs[1..][j] by {
        forall i, j | 0 <= i < j < |xs[1..]| ensures xs[1..][i] != xs[1..][j] {
          assert xs[1..][i] == xs[i + 1] && xs[1..][j] == xs[j + 1];
        }
      }
      MultiplicityOfDistinct(xs[1..], x);
      if xs[0] == x {
        assert x !in xs[1..];
      }
    }
  }

  /** Number of elements of `xs` that satisfy `p`. */
  function Count<T>(xs: seq<T>, p: T -> bool): nat {
    |Filter(xs, p)|
  }

  /** The count of a non-empty sequence, split at its head. */
  lemma CountCons<T>(xs: seq<T>, p: T -> bool)
    requires |xs| > 0
    ensures Count(xs, p) == (if p(xs[0]) then 1 else 0) + Count(xs[1..], p)
  {
  }

  /** Counting with two tests that agree everywhere gives the same number. */
  lemma {:induction false} CountAgree<T>(xs: seq<T>, p: T -> bool, q: T -> bool)
    requires forall x :: p(x) == q(x)
    ensures Count(xs, p) == Count(xs, q)
  {
    if |xs| > 0 {
      CountAgree(xs[1..], p, q);
    }
  }

  /** Counting one more element adds one exactly when it satisfies `p`. */
  lemma CountSnoc<T>(xs: seq<T>, x: T, p: T -> bool)
    ensures Count(xs + [x], p) == Count(xs, p) + (if p(x) then 1 else 0)
  {
    FilterConcat(xs, [x], p);
    assert Filter([x], p) == (if p(x) then [x] else []) + Filter([x][1..], p);
  }

  /** Sum of the bucket sizes of `xs` over the keys `ks`. */
  function BucketSizes<T, K(==)>(xs: seq<T>, key: T -> K, ks: seq<K>): nat {
    if |ks| == 0 then 0 else |Bucket(xs, key, ks[0])| + BucketSizes(xs, key, ks[1..])
  }

  predicate Distinct<K(==)>(ks: seq<K>) {
    forall i, j :: 0 <= i < j < |ks| ==> ks[i] != ks[j]
  }

  /** Exactly one of the distinct keys `ks` equals `k`, when `k` is among them. */
  lemma {:induction false} OneKeyMatches<K>(ks: seq<K>, k: K)
    requires Distinct(ks)
    ensures (k in ks ==> Matches(ks, k) == 1) && (k !in ks ==> Matches(ks, k) == 0)
  {
    if |ks| > 0 {
      assert Distinct(ks[1..]) by {
        forall i, j | 0 <= i < j < |ks[1..]| ensures ks[1..][i] != ks[1..][j] {
          assert ks[1..][i] == ks[i + 1] && ks[1..][j] == ks[j + 1];
        }
      }
      OneKeyMatches(ks[1..], k);
      if ks[0] == k {
        assert k !in ks[1..] by {
          forall i | 0 <= i < |ks[1..]| ensures ks[1..][i] != k {
            assert ks[1..][i] == ks[i + 1];
          }
        }
      } else {
        assert k in ks ==> k in ks[1..];
      }
    }
  }

  function Matches<K(==)>(ks: seq<K>, k: K): nat {
    if |ks| == 0 then 0 else (if ks[0] == k then 1 else 0) + Matches(ks[1..], k)
  }

  lemma {:induction false} BucketSizesStep<T, K>(x: T, xs: seq<T>, key: T -> K, ks: seq<K>)
    ensures BucketSizes([x] + xs, key, ks) == Matches(ks, key(x)) + BucketSizes(xs, key, ks)
  {
    if |ks| > 0 {
      assert ([x] + xs)[1..] == xs;
      BucketSizesStep(x, xs, key, ks[1..]);
    }
  }

  /** Bucketing by a key that always lands in the distinct list `ks` loses and
      duplicates nothing: the bucket sizes add up to the input length. */
  lemma {:induction false} PartitionTotal<T, K>(xs: seq<T>, key: T -> K, ks: seq<K>)
    requires Distinct(ks)
    requires forall i :: 0 <= i < |xs| ==> key(xs[i]) in ks
    ensures BucketSizes(xs, key, ks) == |xs|
  {
    if |xs| == 0 {
      ZeroBuckets(key, ks);
    } else {
      assert xs == [xs[0]] + xs[1..];
      BucketSizesStep(xs[0], xs[1..], key, ks);
      OneKeyMatches(ks, key(xs[0]));
      PartitionTotal(xs[1..], key, ks);
    }
  }

  lemma {:induction false} ZeroBuckets<T, K>(key: T -> K, ks: seq<K>)
    ensures BucketSizes([], key, ks) == 0
  {
    if |ks| > 0 {
      ZeroBuckets(key, ks[1..]);
    }
  }

  lemma BucketSizesCons<T, K>(xs: seq<T>, key: T -> K, k: K, ks: seq<K>)
    ensures BucketSizes(xs, key, [k] + ks) == |Bucket(xs, key, k)| + BucketSizes(xs, key, ks)
  {
    assert ([k] + ks)[1..] == ks;
  }

  lemma BucketSizes5<T, K>(xs: seq<T>, key: T -> K, a: K, b: K, c: K, d: K, e: K)
    ensures BucketSizes(xs, key, [a, b, c, d, e])
      == |Bucket(xs, key, a)| + |Bucket(xs, key, b)| + |Bucket(xs, key, c)| + |Bucket(xs, key, d)| + |Bucket(xs, key, e)|
  {
    BucketSizesCons(xs, key, e, []);
    BucketSizesCons(xs, key, d, [e]);
    BucketSizesCons(xs, key, c, [d, e]);
    BucketSizesCons(xs, key, b, [c, d, e]);
    BucketSizesCons(xs, key, a, [b, c, d, e]);
    assert [a] + [b, c, d, e] == [a, b, c, d, e];
  }

  lemma BucketSizes7<T, K>(xs: seq<T>, key: T -> K, a: K, b: K, c: K, d: K, e: K, f: K, g: K)
    ensures BucketSizes(xs, key, [a, b, c, d, e, f, g])
      == |Bucket(xs, key, a)| + |Bucket(xs, key, b)| + |Bucket(xs, key, c)| + |Bucket(xs, key, d)|
         + |Bucket(xs, key, e)| + |Bucket(xs, key, f)| + |Bucket(xs, key, g)|
  {
    BucketSizes5(xs, key, c, d, e, f, g);
    BucketSizesCons(xs, key, b, [c, d, e, f, g]);
    BucketSizesCons(xs, key, a, [b, c, d, e, f, g]);
    assert [b] + [c, d, e, f, g] == [b, c, d, e, f, g];
    assert [a] + [b, c, d, e, f, g] == [a, b, c, d, e, f, g];
  }

  lemma BucketSizes8<T, K>(xs: seq<T>, key: T -> K, a: K, b: K, c: K, d: K, e: K, f: K, g: K, h: K)
    ensures BucketSizes(xs, key, [a, b, c, d, e, f, g, h])
      == |Bucket(xs, key, a)| + |Bucket(xs, key, b)| + |Bucket(xs, key, c)| + |Bucket(xs, key, d)|
         + |Bucket(xs, key, e)| + |Bucket(xs, key, f)| + |Bucket(xs, key, g)| + |Bucket(xs, key, h)|
  {
    BucketSizes7(xs, key, b, c, d, e, f, g, h);
    BucketSizesCons(xs, key, a, [b, c, d, e, f, g, h]);
    assert [a] + [b, c, d, e, f, g, h] == [a, b, c, d, e, f, g, h];
  }

  /** Sum of a sequence of reals. */
  function SumReal(xs: seq<real>): real {
    if |xs| == 0 then 0.0 else xs[0] + SumReal(xs[1..])
  }

  /** Sum of a sequence of naturals. */
  function SumNat(xs: seq<nat>): nat {
    if |xs| == 0 then 0 else xs[0] + SumNat(xs[1..])
  }
}

/** A stable sort of a sequence by a real-valued key, as Python's `sorted`. */
module Sorting {
  import Seqs

  ghost predicate SortedBy<T>(xs: seq<T>, key: T -> real) {
    forall i, j :: 0 <= i < j < |xs| ==> key(xs[i]) <= key(xs[j])
  }

  /** Insert `x` before the first element whose key is not smaller. */
  function Insert<T>(x: T, xs: seq<T>, key: T -> real): (r: seq<T>)
    ensures |r| == |xs| + 1
  {
    if |xs| == 0 then [x]
    else if key(x) <= key(xs[0]) then [x] + xs
    else [xs[0]] + Insert(x, xs[1..], key)
  }

  /** Insertion sort; equal keys keep their input order. */
  function SortBy<T>(xs: seq<T>, key: T -> real): (r: seq<T>)
    ensures |r| == |xs|
  {
    if |xs| == 0 then [] else Insert(xs[0], SortBy(xs[1..], key), key)
  }

  lemma {:induction false} InsertPermutes<T>(x: T, xs: seq<T>, key: T -> real)
    ensures multiset(Insert(x, xs, key)) == multiset([x] + xs)
  {
    if |xs| > 0 && key(x) > key(xs[0]) {
      InsertPermutes(x, xs[1..], key);
      assert xs == [xs[0]] + xs[1..];
    }
  }

  lemma SortedTail<T>(xs: seq<T>, key: T -> real)
    requires |xs| > 0 && SortedBy(xs, key)
    ensures SortedBy(xs[1..], key)
    ensures forall i :: 0 <= i < |xs[1..]| ==> key(xs[0]) <= key(xs[1..][i])
  {
    forall i, j | 0 <= i < j < |xs[1..]| ensures key(xs[1..][i]) <= key(xs[1..][j]) {
      assert xs[1..][i] == xs[i + 1] && xs[1..][j] == xs[j + 1];
    }
  }

  lemma SortedCons<T>(y: T, ys: seq<T>, key: T -> real)
    requires SortedBy(ys, key)
    requires forall z :: z in ys ==> key(y) <= key(z)
    ensures SortedBy([y] + ys, key)
  {
    var r := [y] + ys;
    forall i, j | 0 <= i < j < |r| ensures key(r[i]) <= key(r[j]) {
      assert r[j] == ys[j - 1];
      if i > 0 {
        assert r[i] == ys[i - 1];
      }
    }
  }

  lemma {:induction false} InsertSorted<T>(x: T, xs: seq<T>, key: T -> real)
    requires SortedBy(xs, key)
    ensures SortedBy(Insert(x, xs, key), key)
  {
    if |xs| == 0 {
    } else if key(x) <= key(xs[0]) {
      forall z | z in xs ensures key(x) <= key(z) {
        var m :| 0 <= m < |xs| && xs[m] == z;
      }
      SortedCons(x, xs, key);
    } else {
      SortedTail(xs, key);
      InsertSorted(x, xs[1..], key);
      var rest := Insert(x, xs[1..], key);
      InsertPermutes(x, xs[1..], key);
      forall z | z in rest ensures key(xs[0]) <= key(z) {
        assert z in multiset([x] + xs[1..]);
        if z != x {
          assert z in xs[1..];
          var m :| 0 <= m < |xs[1..]| && xs[1..][m] == z;
        }
      }
      SortedCons(xs[0], rest, key);
    }
  }

  lemma {:induction false} InsertStable<T>(x: T, xs: seq<T>, key: T -> real, k: real)
    ensures Seqs.Bucket(Insert(x, xs, key), key, k) == Seqs.Bucket([x] + xs, key, k)
  {
    if |xs| > 0 && key(x) > key(xs[0]) {
      InsertStable(x, xs[1..], key, k);
      var rest := Insert(x, xs[1..], key);
      assert ([xs[0]] + rest)[1..] == rest;
      assert ([x] + xs[1..])[1..] == xs[1..];
      assert ([x] + xs)[1..] == xs;
    }
  }

  /** The sort is sorted, a permutation, and stable: every key class keeps
      the input order of its members. */
  lemma {:induction false} SortFacts<T>(xs: seq<T>, key: T -> real)
    ensures SortedBy(SortBy(xs, key), key)
    ensures multiset(SortBy(xs, key)) == multiset(xs)
    ensures forall k :: Seqs.Bucket(SortBy(xs, key), key, k) == Seqs.Bucket(xs, key, k)
  {
    if |xs| > 0 {
      SortFacts(xs[1..], key);
      var s := SortBy(xs[1..], key);
      InsertSorted(xs[0], s, key);
      InsertPermutes(xs[0], s, key);
      assert xs == [xs[0]] + xs[1..];
      forall k ensures Seqs.Bucket(SortBy(xs, key), key, k) == Seqs.Bucket(xs, key, k) {
        InsertStable(xs[0], s, key, k);
        assert ([xs[0]] + s)[1..] == s;
      }
    }
  }

  /** Sorting keeps the order of the elements within one key. */
  lemma SortStable<T>(xs: seq<T>, key: T -> real, k: real)
    ensures Seqs.Bucket(SortBy(xs, key), key, k) == Seqs.Bucket(xs, key, k)
  {
    SortFacts(xs, key);
  }
}

/** Points, bounding boxes and raw GeoJSON coordinate lists. */
module Geo {
  import opened Wrappers

  datatype Point = Point(lat: real, lon: real)

  /** `(min_lat, min_lon, max_lat, max_lon)` as used throughout the source. */
  datatype BBox = BBox(minLat: real, minLon: real, maxLat: real, maxLon: real)

  /** Inclusive containment, `min_lat <= lat <= max_lat and min_lon <= lon <= max_lon`. */
  predicate InBBox(p: Point, b: BBox) {
    b.minLat <= p.lat <= b.maxLat && b.minLon <= p.lon <= b.maxLon
  }

  /** A GeoJSON `coordinates` value: a flat `[lon, lat]` pair or a list of
      such pairs. */
  datatype Coords = Flat(values: seq<real>) | Nested(points: seq<seq<real>>)

  function CoordsLength(c: Coords): nat {
    match c
    case Flat(v) => |v|
    case Nested(ps) => |ps|
  }

  /** Squared Euclidean distance in degree space. */
  function SqDist(a: Point, b: Point): real {
    (b.lat - a.lat) * (b.lat - a.lat) + (b.lon - a.lon) * (b.lon - a.lon)
  }
}
