/**
 * Filtering and bucketing of sequences, the two list operations every grouping in
 * the app is made of: `Array.prototype.filter` and "push each element onto the
 * bucket of its key". Both are defined from the END of the sequence, the way a
 * left-to-right loop extends its result, so that a loop over `xs[..i]` can
 * keep `Filter(xs[..i], p)` as an invariant.
 */
module Buckets {

  /** The elements of `xs` satisfying `p`, in their order in `xs`. */
  function Filter<T>(xs: seq<T>, p: T -> bool): (r: seq<T>)
    ensures |r| <= |xs|
    decreases |xs|
  {
    if xs == [] then [] else
      var last := xs[|xs| - 1];
      Filter(xs[..|xs| - 1], p) + (if p(last) then [last] else [])
  }

  function Reverse<T>(xs: seq<T>): (r: seq<T>)
    ensures |r| == |xs| && forall i :: 0 <= i < |xs| ==> r[i] == xs[|xs| - 1 - i]
  {
    if xs == [] then [] else Reverse(xs[1..]) + [xs[0]]
  }

  lemma ReverseAppend<T>(xs: seq<T>, ys: seq<T>)
    ensures Reverse(xs + ys) == Reverse(ys) + Reverse(xs)
  {
  }

  lemma {:induction false} ReversePermutes<T>(xs: seq<T>)
    ensures multiset(Reverse(xs)) == multiset(xs)
  {
    if xs != [] {
      ReversePermutes(xs[1..]);
      assert xs == [xs[0]] + xs[1..];
    }
  }

  /** The predicate "has key `k`". */
  function HasKey<T, K(==)>(key: T -> K, k: K): T -> bool {
    x => key(x) == k
  }

  /** The bucket of key `k`: the elements whose key is `k`, in their order in `xs`. */
  function Members<T, K(==)>(xs: seq<T>, key: T -> K, k: K): seq<T> {
    Filter(xs, HasKey(key, k))
  }

  predicate Distinct<K(==)>(ks: seq<K>) {
    forall i, j :: 0 <= i < j < |ks| ==> ks[i] != ks[j]
  }

  /** Keys in order of first occurrence, each once. */
  function FirstKeys<T, K(==)>(xs: seq<T>, key: T -> K): seq<K>
    decreases |xs|
  {
    if xs == [] then [] else
      var ks := FirstKeys(xs[..|xs| - 1], key);
      var k := key(xs[|xs| - 1]);
      if k in ks then ks else ks + [k]
  }

  /** The sizes of the buckets of `ks`, added up. */
  function TotalSize<T, K(==)>(xs: seq<T>, key: T -> K, ks: seq<K>): nat {
    if ks == [] then 0 else |Members(xs, key, ks[0])| + TotalSize(xs, key, ks[1..])
  }

  /** The prefix one longer is the prefix and the next element. */
  lemma PrefixStep<T>(xs: seq<T>, i: nat)
    requires i < |xs|
    ensures xs[..i + 1] == xs[..i] + [xs[i]]
  {
  }

  // ---------------------------------------------------------------- Filter

  lemma FilterSnoc<T>(xs: seq<T>, x: T, p: T -> bool)
    ensures Filter(xs + [x], p) == Filter(xs, p) + (if p(x) then [x] else [])
  {
    assert (xs + [x])[..|xs|] == xs;
  }

  /** An element is kept exactly when it occurs in `xs` and satisfies `p`. */
  lemma {:induction false} FilterMeaning<T>(xs: seq<T>, p: T -> bool)
    ensures forall y :: y in Filter(xs, p) <==> y in xs && p(y)
    decreases |xs|
  {
    if xs != [] {
      var init := xs[..|xs| - 1];
      FilterMeaning(init, p);
      assert xs == init + [xs[|xs| - 1]];
    }
  }

  /** Filtering by a predicate every element satisfies changes nothing. */
  lemma {:induction false} FilterKeepsAll<T>(xs: seq<T>, p: T -> bool)
    requires forall i :: 0 <= i < |xs| ==> p(xs[i])
    ensures Filter(xs, p) == xs
    decreases |xs|
  {
    if xs != [] {
      FilterKeepsAll(xs[..|xs| - 1], p);
    }
  }

  /** Filtering by a predicate no element satisfies keeps nothing. */
  lemma {:induction false} FilterDropsAll<T>(xs: seq<T>, p: T -> bool)
    requires forall i :: 0 <= i < |xs| ==> !p(xs[i])
    ensures Filter(xs, p) == []
    decreases |xs|
  {
    if xs != [] {
      FilterDropsAll(xs[..|xs| - 1], p);
    }
  }

  /** Predicates that agree on every element of `xs` filter it alike. */
  lemma {:induction false} FilterAgree<T>(xs: seq<T>, p: T -> bool, q: T -> bool)
    requires forall i :: 0 <= i < |xs| ==> p(xs[i]) == q(xs[i])
    ensures Filter(xs, p) == Filter(xs, q)
    decreases |xs|
  {
    if xs != [] {
      FilterAgree(xs[..|xs| - 1], p, q);
    }
  }

  /** Filtering twice is filtering once by the conjunction. */
  lemma {:induction false} FilterTwice<T>(xs: seq<T>, p: T -> bool, q: T -> bool, both: T -> bool)
    requires forall i :: 0 <= i < |xs| ==> both(xs[i]) == (p(xs[i]) && q(xs[i]))
    ensures Filter(Filter(xs, p), q) == Filter(xs, both)
    decreases |xs|
  {
    if xs != [] {
      var init, last := xs[..|xs| - 1], xs[|xs| - 1];
      FilterTwice(init, p, q, both);
      assert xs == init + [last];
      FilterSnoc(init, last, p);
      FilterSnoc(init, last, both);
      assert both(last) == (p(last) && q(last));
      if p(last) {
        FilterSnoc(Filter(init, p), last, q);
        assert Filter(xs, p) == Filter(init, p) + [last];
      } else {
        assert Filter(xs, p) == Filter(init, p);
      }
    }
  }

  /** A filter keeps no more copies of any element than the input has. */
  lemma {:induction false} FilterSubset<T>(xs: seq<T>, p: T -> bool)
    ensures multiset(Filter(xs, p)) <= multiset(xs)
    decreases |xs|
  {
    if xs != [] {
      var init := xs[..|xs| - 1];
      assert xs == init + [xs[|xs| - 1]];
      FilterSubset(init, p);
    }
  }

  lemma {:induction false} FilterAppend<T>(xs: seq<T>, ys: seq<T>, p: T -> bool)
    ensures Filter(xs + ys, p) == Filter(xs, p) + Filter(ys, p)
    decreases |ys|
  {
    if ys == [] {
      assert xs + ys == xs;
    } else {
      var init, last := ys[..|ys| - 1], ys[|ys| - 1];
      assert ys == init + [last];
      assert xs + ys == (xs + init) + [last];
      FilterAppend(xs, init, p);
      FilterSnoc(xs + init, last, p);
      FilterSnoc(init, last, p);
    }
  }

  /** Filtering the reversed sequence gives the reversed filter. */
  lemma {:induction false} FilterReverse<T>(xs: seq<T>, p: T -> bool)
    ensures Filter(Reverse(xs), p) == Reverse(Filter(xs, p))
    decreases |xs|
  {
    if xs != [] {
      var h, t := xs[0], xs[1..];
      var ht := if p(h) then [h] else [];
      assert xs == [h] + t;
      FilterReverse(t, p);
      FilterSnoc(Reverse(t), h, p);
      FilterAppend([h], t, p);
      assert Filter([h], p) == ht by {
        assert [h][..0] == [];
      }
      ReverseAppend(ht, Filter(t, p));
      assert Reverse(ht) == ht;
    }
  }

  // ---------------------------------------------------------------- buckets

  lemma MembersSnoc<T, K>(xs: seq<T>, x: T, key: T -> K, k: K)
    ensures Members(xs + [x], key, k) == Members(xs, key, k) + (if key(x) == k then [x] else [])
  {
    FilterSnoc(xs, x, HasKey(key, k));
  }

  /** The bucket of `k` holds exactly the elements of `xs` whose key is `k`. */
  lemma MembersMeaning<T, K>(xs: seq<T>, key: T -> K, k: K)
    ensures forall y :: y in Members(xs, key, k) <==> y in xs && key(y) == k
  {
    FilterMeaning(xs, HasKey(key, k));
  }

  lemma FirstKeysSnoc<T, K>(xs: seq<T>, x: T, key: T -> K)
    ensures FirstKeys(xs + [x], key)
         == if key(x) in FirstKeys(xs, key) then FirstKeys(xs, key) else FirstKeys(xs, key) + [key(x)]
  {
    assert (xs + [x])[..|xs|] == xs;
  }

  /** First-occurrence keys are distinct. */
  lemma {:induction false} FirstKeysDistinct<T, K>(xs: seq<T>, key: T -> K)
    ensures Distinct(FirstKeys(xs, key))
    decreases |xs|
  {
    if xs != [] {
      var init, last := xs[..|xs| - 1], xs[|xs| - 1];
      assert xs == init + [last];
      FirstKeysDistinct(init, key);
      FirstKeysSnoc(init, last, key);
    }
  }

  /** Every key that occurs is among the first-occurrence keys. */
  lemma {:induction false} FirstKeysCover<T, K>(xs: seq<T>, key: T -> K)
    ensures forall i :: 0 <= i < |xs| ==> key(xs[i]) in FirstKeys(xs, key)
    decreases |xs|
  {
    if xs != [] {
      var init, last := xs[..|xs| - 1], xs[|xs| - 1];
      assert xs == init + [last];
      FirstKeysCover(init, key);
      FirstKeysSnoc(init, last, key);
      forall i | 0 <= i < |init|
        ensures key(xs[i]) in FirstKeys(xs, key)
      {
        assert xs[i] == init[i];
      }
    }
  }

  /** Every first-occurrence key is the key of some element. */
  lemma {:induction false} FirstKeysOccur<T, K>(xs: seq<T>, key: T -> K)
    ensures forall k :: k in FirstKeys(xs, key) ==> exists i :: 0 <= i < |xs| && key(xs[i]) == k
    decreases |xs|
  {
    if xs != [] {
      var init, last := xs[..|xs| - 1], xs[|xs| - 1];
      assert xs == init + [last];
      FirstKeysOccur(init, key);
      FirstKeysSnoc(init, last, key);
      forall k | k in FirstKeys(xs, key)
        ensures exists i :: 0 <= i < |xs| && key(xs[i]) == k
      {
        if k in FirstKeys(init, key) {
          var i :| 0 <= i < |init| && key(init[i]) == k;
          assert xs[i] == init[i];
        } else {
          assert key(xs[|xs| - 1]) == k;
        }
      }
    }
  }

  /** Some element with key `ka` comes before every element with key `kb`. */
  predicate OccursBefore<T, K(==)>(xs: seq<T>, key: T -> K, ka: K, kb: K) {
    exists i :: 0 <= i < |xs| && key(xs[i]) == ka
      && forall j :: 0 <= j < |xs| && key(xs[j]) == kb ==> i < j
  }

  /** First-occurrence keys are listed in the order of their first occurrences. */
  lemma {:induction false} FirstKeysOrder<T, K>(xs: seq<T>, key: T -> K, a: nat, b: nat)
    requires a < b < |FirstKeys(xs, key)|
    ensures OccursBefore(xs, key, FirstKeys(xs, key)[a], FirstKeys(xs, key)[b])
    decreases |xs|
  {
    var init, last := xs[..|xs| - 1], xs[|xs| - 1];
    assert xs == init + [last];
    FirstKeysSnoc(init, last, key);
    if b < |FirstKeys(init, key)| {
      FirstKeysOrder(init, key, a, b);
      OccursBeforeSnoc(init, last, key, FirstKeys(init, key)[a], FirstKeys(init, key)[b]);
    } else {
      FirstKeysOccur(init, key);
      FirstKeysCover(init, key);
      assert FirstKeys(init, key)[a] in FirstKeys(init, key);
      OccursBeforeNew(init, last, key, FirstKeys(init, key)[a]);
    }
  }

  lemma OccursBeforeSnoc<T, K>(xs: seq<T>, x: T, key: T -> K, ka: K, kb: K)
    requires OccursBefore(xs, key, ka, kb)
    ensures OccursBefore(xs + [x], key, ka, kb)
  {
    var i :| 0 <= i < |xs| && key(xs[i]) == ka
      && forall j :: 0 <= j < |xs| && key(xs[j]) == kb ==> i < j;
    var ys := xs + [x];
    assert key(ys[i]) == ka;
    forall j | 0 <= j < |ys| && key(ys[j]) == kb
      ensures i < j
    {
      if j < |xs| {
        assert ys[j] == xs[j];
      }
    }
  }

  /** A key occurring in `xs` comes before the key of an appended element that is new. */
  lemma OccursBeforeNew<T, K>(xs: seq<T>, x: T, key: T -> K, ka: K)
    requires exists i :: 0 <= i < |xs| && key(xs[i]) == ka
    requires forall i :: 0 <= i < |xs| ==> key(xs[i]) != key(x)
    ensures OccursBefore(xs + [x], key, ka, key(x))
  {
    var i :| 0 <= i < |xs| && key(xs[i]) == ka;
    var ys := xs + [x];
    assert key(ys[i]) == ka;
  }

  /** When every element has key `k`, there is one key and its bucket is everything. */
  lemma {:induction false} SingleKey<T, K>(xs: seq<T>, key: T -> K, k: K)
    requires xs != [] && forall i :: 0 <= i < |xs| ==> key(xs[i]) == k
    ensures FirstKeys(xs, key) == [k] && Members(xs, key, k) == xs
    decreases |xs|
  {
    var init, last := xs[..|xs| - 1], xs[|xs| - 1];
    assert xs == init + [last];
    FirstKeysSnoc(init, last, key);
    MembersSnoc(init, last, key, k);
    if init != [] {
      SingleKey(init, key, k);
    }
  }

  /** A run of one key followed by an element with another key gives two buckets. */
  lemma RunThenNewKey<T, K>(xs: seq<T>, x: T, key: T -> K, k: K)
    requires xs != [] && forall i :: 0 <= i < |xs| ==> key(xs[i]) == k
    requires key(x) != k
    ensures FirstKeys(xs + [x], key) == [k, key(x)]
    ensures Members(xs + [x], key, k) == xs && Members(xs + [x], key, key(x)) == [x]
  {
    SingleKey(xs, key, k);
    FirstKeysSnoc(xs, x, key);
    MembersSnoc(xs, x, key, k);
    NoSuchKey(xs, key, key(x));
    MembersSnoc(xs, x, key, key(x));
  }

  /** When exactly the elements at positions `lo` to `hi - 1` have key `k`, they are its bucket. */
  lemma ContiguousBucket<T, K>(xs: seq<T>, key: T -> K, k: K, lo: nat, hi: nat)
    requires lo <= hi <= |xs|
    requires forall i :: 0 <= i < |xs| ==> (key(xs[i]) == k <==> lo <= i < hi)
    ensures Members(xs, key, k) == xs[lo..hi]
  {
    var p := HasKey(key, k);
    var a, b, c := xs[..lo], xs[lo..hi], xs[hi..];
    assert xs == a + b + c;
    FilterAppend(a + b, c, p);
    FilterAppend(a, b, p);
    forall i | 0 <= i < |a|
      ensures !p(a[i])
    {
      assert a[i] == xs[i];
    }
    forall i | 0 <= i < |b|
      ensures p(b[i])
    {
      assert b[i] == xs[lo + i];
    }
    forall i | 0 <= i < |c|
      ensures !p(c[i])
    {
      assert c[i] == xs[hi + i];
    }
    FilterDropsAll(a, p);
    FilterKeepsAll(b, p);
    FilterDropsAll(c, p);
  }

  /** A key no element has has an empty bucket. */
  lemma NoSuchKey<T, K>(xs: seq<T>, key: T -> K, k: K)
    requires forall i :: 0 <= i < |xs| ==> key(xs[i]) != k
    ensures Members(xs, key, k) == []
  {
    FilterDropsAll(xs, HasKey(key, k));
  }

  /** How often `k` occurs in `ks`. */
  function Occurrences<K(==)>(ks: seq<K>, k: K): nat {
    if ks == [] then 0 else (if ks[0] == k then 1 else 0) + Occurrences(ks[1..], k)
  }

  lemma {:induction false} OccursOnce<K>(ks: seq<K>, k: K)
    requires Distinct(ks) && k in ks
    ensures Occurrences(ks, k) == 1
  {
    if ks[0] == k {
      OccursNot(ks[1..], k);
    } else {
      OccursOnce(ks[1..], k);
    }
  }

  lemma {:induction false} OccursNot<K>(ks: seq<K>, k: K)
    requires k !in ks
    ensures Occurrences(ks, k) == 0
  {
    if ks != [] {
      OccursNot(ks[1..], k);
    }
  }

  lemma {:induction false} TotalSizeSnoc<T, K>(xs: seq<T>, x: T, key: T -> K, ks: seq<K>)
    ensures TotalSize(xs + [x], key, ks) == TotalSize(xs, key, ks) + Occurrences(ks, key(x))
  {
    if ks != [] {
      MembersSnoc(xs, x, key, ks[0]);
      TotalSizeSnoc(xs, x, key, ks[1..]);
    }
  }

  /**
   * Bucketing loses and duplicates nothing: when every key of `xs` is one of the
   * distinct keys `ks`, the buckets of `ks` hold |xs| elements between them.
   */
  lemma {:induction false} PartitionSize<T, K>(xs: seq<T>, key: T -> K, ks: seq<K>)
    requires Distinct(ks)
    requires forall i :: 0 <= i < |xs| ==> key(xs[i]) in ks
    ensures TotalSize(xs, key, ks) == |xs|
    decreases |xs|
  {
    if xs == [] {
      EmptyBuckets(key, ks);
    } else {
      var init, last := xs[..|xs| - 1], xs[|xs| - 1];
      PartitionSize(init, key, ks);
      assert xs == init + [last];
      TotalSizeSnoc(init, last, key, ks);
      OccursOnce(ks, key(last));
    }
  }

  lemma {:induction false} EmptyBuckets<T, K>(key: T -> K, ks: seq<K>)
    ensures TotalSize([], key, ks) == 0
  {
    if ks != [] {
      EmptyBuckets(key, ks[1..]);
    }
  }

  // ---------------------------------------------------------------- rising keys

  /** Keys strictly increasing in `rank`. */
  predicate Rising<K>(ks: seq<K>, rank: K -> int) {
    forall i, j :: 0 <= i < j < |ks| ==> rank(ks[i]) < rank(ks[j])
  }

  /**
   * When the keys of a list never go down in a one-to-one `rank`, its
   * first-occurrence keys rise strictly and end in the key of its last element.
   */
  lemma {:induction false} FirstKeysRising<T, K>(xs: seq<T>, key: T -> K, rank: K -> int)
    requires forall a, b :: rank(a) == rank(b) ==> a == b
    requires forall i :: 0 < i < |xs| ==> rank(key(xs[i - 1])) <= rank(key(xs[i]))
    ensures Rising(FirstKeys(xs, key), rank)
    ensures xs != [] ==> FirstKeys(xs, key) != [] && FirstKeys(xs, key)[|FirstKeys(xs, key)| - 1] == key(xs[|xs| - 1])
    decreases |xs|
  {
    if xs != [] {
      var init, x := xs[..|xs| - 1], xs[|xs| - 1];
      FirstKeysRising(init, key, rank);
      if init != [] {
        assert init[|init| - 1] == xs[|xs| - 2];
      }
      AddKeyRising(FirstKeys(init, key), key(x), rank);
    }
  }

  /** Adding a key ranked no lower than the last one keeps the keys rising and makes it the last. */
  lemma AddKeyRising<K>(ks: seq<K>, k: K, rank: K -> int)
    requires forall a, b :: rank(a) == rank(b) ==> a == b
    requires Rising(ks, rank)
    requires ks != [] ==> rank(ks[|ks| - 1]) <= rank(k)
    ensures var r := if k in ks then ks else ks + [k];
      Rising(r, rank) && r != [] && r[|r| - 1] == k
  {
    if k in ks {
      forall m | 0 <= m < |ks| - 1
        ensures ks[m] != k
      {
        assert rank(ks[m]) < rank(ks[|ks| - 1]);
      }
    } else {
      var r := ks + [k];
      forall i, j | 0 <= i < j < |r|
        ensures rank(r[i]) < rank(r[j])
      {
        if j < |ks| {
          assert r[i] == ks[i] && r[j] == ks[j];
        } else if i < |ks| - 1 {
          assert r[i] == ks[i] && rank(ks[i]) < rank(ks[|ks| - 1]);
        } else {
          assert r[i] == ks[|ks| - 1] != k;
        }
      }
    }
  }

  // ---------------------------------------------------------------- distinctness

  /** The bucket of a key that no two elements share holds at most one element. */
  lemma {:induction false} MembersAtMostOne<T, K>(xs: seq<T>, key: T -> K, k: K)
    requires forall i, j :: 0 <= i < j < |xs| ==> key(xs[i]) != key(xs[j])
    ensures |Members(xs, key, k)| <= 1
    decreases |xs|
  {
    if xs != [] {
      var init, last := xs[..|xs| - 1], xs[|xs| - 1];
      assert xs == init + [last];
      MembersAtMostOne(init, key, k);
      if key(last) == k {
        FilterDropsAll(init, HasKey(key, k));
      }
    }
  }

  lemma DistinctCons<T>(h: T, t: seq<T>)
    ensures Distinct([h] + t) <==> h !in t && Distinct(t)
  {
    var s := [h] + t;
    if h !in t && Distinct(t) {
      forall i, j | 0 <= i < j < |s|
        ensures s[i] != s[j]
      {
        if i > 0 {
          assert s[i] == t[i - 1] && s[j] == t[j - 1];
        } else {
          assert s[j] in t;
        }
      }
    }
    if Distinct(s) {
      forall i, j | 0 <= i < j < |t|
        ensures t[i] != t[j]
      {
        assert t[i] == s[i + 1] && t[j] == s[j + 1];
      }
      forall i | 0 <= i < |t|
        ensures t[i] != h
      {
        assert t[i] == s[i + 1] && h == s[0];
      }
    }
  }

  /** A sequence has no repeated element exactly when its multiset counts every element at most once. */
  lemma {:induction false} DistinctIffSingle<T>(s: seq<T>)
    ensures Distinct(s) <==> forall x :: multiset(s)[x] <= 1
  {
    if s != [] {
      var h, t := s[0], s[1..];
      assert s == [h] + t;
      DistinctIffSingle(t);
      DistinctCons(h, t);
      if !Distinct(s) {
        if h in t {
          assert multiset(s)[h] == multiset(t)[h] + 1;
        } else {
          var x :| multiset(t)[x] > 1;
          assert multiset(s)[x] >= multiset(t)[x];
        }
      }
    }
  }

  lemma DistinctSnoc<T>(xs: seq<T>, x: T)
    requires Distinct(xs) && x !in xs
    ensures Distinct(xs + [x])
  {
  }

  /** Filtering keeps a sequence free of repeats. */
  lemma {:induction false} FilterDistinct<T>(xs: seq<T>, p: T -> bool)
    requires Distinct(xs)
    ensures Distinct(Filter(xs, p))
    decreases |xs|
  {
    if xs != [] {
      var init, last := xs[..|xs| - 1], xs[|xs| - 1];
      assert xs == init + [last];
      FilterDistinct(init, p);
      FilterMeaning(init, p);
      if p(last) {
        assert last !in init;
        DistinctSnoc(Filter(init, p), last);
      }
    }
  }

  /** A permutation of a sequence without repeats has no repeats. */
  lemma DistinctSamePermutation<T>(a: seq<T>, b: seq<T>)
    requires Distinct(a) && multiset(a) == multiset(b)
    ensures Distinct(b)
  {
    DistinctIffSingle(a);
    DistinctIffSingle(b);
  }
}
