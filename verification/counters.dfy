/** Insertion-ordered counters: the `d[k] = d.get(k, 0) + 1` dictionaries the
    analytics build, as association lists that keep first-insertion order. */
module Counters {

  type Counts<K> = seq<(K, nat)>

  function Get<K(==)>(c: Counts<K>, k: K): nat {
    if |c| == 0 then 0
    else if c[0].0 == k then c[0].1
    else Get(c[1..], k)
  }

  function Keys<K>(c: Counts<K>): (ks: seq<K>)
    ensures |ks| == |c|
    ensures forall i :: 0 <= i < |c| ==> ks[i] == c[i].0
  {
    if |c| == 0 then [] else [c[0].0] + Keys(c[1..])
  }

  /** The sum of all counts. */
  function Total<K>(c: Counts<K>): nat {
    if |c| == 0 then 0 else c[0].1 + Total(c[1..])
  }

  /** `d[k] = d.get(k, 0) + 1`: an existing key is incremented in place, a
      new one is appended with count 1. */
  function Bump<K(==)>(c: Counts<K>, k: K): (r: Counts<K>)
    ensures |r| == |c| || |r| == |c| + 1
  {
    if |c| == 0 then [(k, 1)]
    else if c[0].0 == k then [(k, c[0].1 + 1)] + c[1..]
    else [c[0]] + Bump(c[1..], k)
  }

  /** `d[k] = v`: an existing key is overwritten in place, a new one appended. */
  function Put<K(==)>(c: Counts<K>, k: K, v: nat): (r: Counts<K>)
    ensures |r| == |c| || |r| == |c| + 1
  {
    if |c| == 0 then [(k, v)]
    else if c[0].0 == k then [(k, v)] + c[1..]
    else [c[0]] + Put(c[1..], k, v)
  }

  /** Bumping a key adds one to it and leaves every other key alone. */
  lemma {:induction false} BumpGet<K>(c: Counts<K>, k: K, x: K)
    ensures Get(Bump(c, k), x) == Get(c, x) + (if x == k then 1 else 0)
  {
    if |c| > 0 && c[0].0 != k {
      BumpGet(c[1..], k, x);
    }
  }

  lemma {:induction false} BumpTotal<K>(c: Counts<K>, k: K)
    ensures Total(Bump(c, k)) == Total(c) + 1
  {
    if |c| > 0 && c[0].0 != k {
      BumpTotal(c[1..], k);
    }
  }

  lemma {:induction false} PutGet<K>(c: Counts<K>, k: K, v: nat, x: K)
    ensures Get(Put(c, k, v), x) == if x == k then v else Get(c, x)
  {
    if |c| > 0 && c[0].0 != k {
      PutGet(c[1..], k, v, x);
    }
  }

  /** A key occurs at most once. */
  predicate DistinctKeys<K(==)>(c: Counts<K>) {
    forall i, j :: 0 <= i < j < |c| ==> c[i].0 != c[j].0
  }

  lemma {:induction false} BumpKeys<K>(c: Counts<K>, k: K)
    ensures forall x :: x in Keys(Bump(c, k)) <==> x in Keys(c) || x == k
    ensures DistinctKeys(c) ==> DistinctKeys(Bump(c, k))
  {
    if |c| > 0 && c[0].0 != k {
      BumpKeys(c[1..], k);
      assert Keys(c) == [c[0].0] + Keys(c[1..]);
      assert Keys(Bump(c, k)) == [c[0].0] + Keys(Bump(c[1..], k));
      if DistinctKeys(c) {
        assert DistinctKeys(c[1..]) by {
          forall i, j | 0 <= i < j < |c[1..]| ensures c[1..][i].0 != c[1..][j].0 {
            assert c[1..][i] == c[i + 1] && c[1..][j] == c[j + 1];
          }
        }
        var r := Bump(c, k);
        forall i, j | 0 <= i < j < |r| ensures r[i].0 != r[j].0 {
          if i == 0 {
            assert r[j].0 in Keys(Bump(c[1..], k)) by {
              assert r[j] == Bump(c[1..], k)[j - 1];
            }
            assert r[j].0 in Keys(c[1..]) || r[j].0 == k;
            if r[j].0 in Keys(c[1..]) {
              var m :| 0 <= m < |c[1..]| && Keys(c[1..])[m] == r[j].0;
              assert c[m + 1].0 == r[j].0;
            }
          }
        }
      }
    } else if |c| > 0 {
      assert Keys(Bump(c, k)) == Keys(c);
      if DistinctKeys(c) {
        var r := Bump(c, k);
        forall i, j | 0 <= i < j < |r| ensures r[i].0 != r[j].0 {
          assert r[i].0 == c[i].0 && r[j].0 == c[j].0;
        }
      }
    }
  }

  /** `c` holds, for every key, its number of occurrences in `xs`. */
  ghost predicate Tallies<K(!new)>(c: Counts<K>, xs: seq<K>) {
    forall x :: Get(c, x) == multiset(xs)[x]
  }

  /** The counts of a sequence of keys, in order of first occurrence. */
  function CountAll<K(==)>(xs: seq<K>): (c: Counts<K>)
  {
    if |xs| == 0 then [] else Bump(CountAll(xs[..|xs| - 1]), xs[|xs| - 1])
  }

  /** Counting is exact: each key gets its number of occurrences and the
      counts add up to the length. */
  lemma CountAllFacts<K>(xs: seq<K>)
    ensures Total(CountAll(xs)) == |xs|
    ensures forall x :: Get(CountAll(xs), x) == multiset(xs)[x]
    ensures DistinctKeys(CountAll(xs))
    ensures forall x :: x in Keys(CountAll(xs)) <==> x in xs
  {
    CountAllTotal(xs);
    CountAllKeys(xs);
    forall x ensures Get(CountAll(xs), x) == multiset(xs)[x] {
      CountAllGet(xs, x);
    }
  }

  lemma {:induction false} CountAllGet<K>(xs: seq<K>, x: K)
    ensures Get(CountAll(xs), x) == multiset(xs)[x]
  {
    if |xs| > 0 {
      var init := xs[..|xs| - 1];
      var last := xs[|xs| - 1];
      CountAllGet(init, x);
      BumpGet(CountAll(init), last, x);
      assert xs == init + [last];
    }
  }

  lemma {:induction false} CountAllKeys<K>(xs: seq<K>)
    ensures DistinctKeys(CountAll(xs))
    ensures forall x :: x in Keys(CountAll(xs)) <==> x in xs
  {
    if |xs| > 0 {
      var init := xs[..|xs| - 1];
      var last := xs[|xs| - 1];
      CountAllKeys(init);
      BumpKeys(CountAll(init), last);
      assert xs == init + [last];
    } else {
      assert Keys(CountAll(xs)) == [];
    }
  }

  lemma CountAllTallies<K(!new)>(xs: seq<K>)
    ensures Tallies(CountAll(xs), xs)
  {
    CountAllFacts(xs);
  }

  lemma {:induction false} CountAllTotal<K>(xs: seq<K>)
    ensures Total(CountAll(xs)) == |xs|
  {
    if |xs| > 0 {
      CountAllTotal(xs[..|xs| - 1]);
      BumpTotal(CountAll(xs[..|xs| - 1]), xs[|xs| - 1]);
    }
  }

  /** Dropping the first entry keeps the keys distinct. */
  lemma DistinctKeysTail<K>(c: Counts<K>)
    requires DistinctKeys(c) && |c| > 0
    ensures DistinctKeys(c[1..])
  {
    forall a, b | 0 <= a < b < |c[1..]| ensures c[1..][a].0 != c[1..][b].0 {
      assert c[1..][a] == c[a + 1] && c[1..][b] == c[b + 1];
    }
  }

  /** With distinct keys, every entry holds the count `Get` reports for it. */
  lemma {:induction false} DistinctGet<K>(c: Counts<K>, i: nat)
    requires DistinctKeys(c) && i < |c|
    ensures Get(c, c[i].0) == c[i].1
  {
    if i > 0 {
      assert c[0].0 != c[i].0;
      DistinctKeysTail(c);
      DistinctGet(c[1..], i - 1);
    }
  }

  /** With distinct keys there are as many keys as entries. */
  lemma {:induction false} DistinctKeysCard<K>(c: Counts<K>)
    requires DistinctKeys(c)
    ensures |set k | k in Keys(c)| == |c|
  {
    if |c| > 0 {
      DistinctKeysTail(c);
      DistinctKeysCard(c[1..]);
      var rest := set k | k in Keys(c[1..]);
      var all := set k | k in Keys(c);
      assert Keys(c) == [c[0].0] + Keys(c[1..]);
      assert all == rest + {c[0].0};
      assert c[0].0 !in rest;
    }
  }
}
