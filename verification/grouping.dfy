/** Bucketing rows by a key: the `acc[k] = (acc[k] || 0) + w` reductions of
    the dashboard, read back with `Object.entries`, which lists keys in the
    order they were first added. */
module Grouping {
  import opened Seqs

  /** One bucket: a key and its running total. */
  datatype Bucket<K> = Bucket(key: K, total: int)

  function Keys<K>(g: seq<Bucket<K>>): seq<K> {
    seq(|g|, i requires 0 <= i < |g| => g[i].key)
  }

  predicate DistinctKeys<K(==)>(g: seq<Bucket<K>>) {
    forall i, j :: 0 <= i < j < |g| ==> g[i].key != g[j].key
  }

  /** The position of the bucket of `k`, or `|g|` when there is none. */
  function IndexOfKey<K(==)>(g: seq<Bucket<K>>, k: K): (i: nat)
    ensures i <= |g|
    ensures i < |g| ==> g[i].key == k
    ensures forall j :: 0 <= j < i ==> g[j].key != k
  {
    if g == [] || g[0].key == k then 0 else 1 + IndexOfKey(g[1..], k)
  }

  /** `acc[k] = (acc[k] || 0) + w`: add to the bucket of `k`, or open a new
      bucket at the end. */
  function Bump<K(==)>(g: seq<Bucket<K>>, k: K, w: int): (r: seq<Bucket<K>>)
    ensures |r| == if IndexOfKey(g, k) == |g| then |g| + 1 else |g|
  {
    var i := IndexOfKey(g, k);
    if i == |g| then g + [Bucket(k, w)] else g[i := Bucket(k, g[i].total + w)]
  }

  lemma BumpKeys<K>(g: seq<Bucket<K>>, k: K, w: int)
    ensures Keys(Bump(g, k, w)) == if k in Keys(g) then Keys(g) else Keys(g) + [k]
  {
    var i := IndexOfKey(g, k);
    var r := Bump(g, k, w);
    if i == |g| {
      assert k !in Keys(g) by {
        forall j | 0 <= j < |g| ensures Keys(g)[j] != k {
        }
      }
      assert Keys(r) == Keys(g) + [k];
    } else {
      assert Keys(g)[i] == k;
      assert Keys(r) == Keys(g);
    }
  }

  /** Buckets of `xs` by `key`, each holding the sum of `weight` over its rows,
      in the order the keys first occur. */
  function GroupSum<T, K(==)>(xs: seq<T>, key: T -> K, weight: T -> int): seq<Bucket<K>> {
    if xs == [] then []
    else Bump(GroupSum(xs[..|xs| - 1], key, weight), key(xs[|xs| - 1]), weight(xs[|xs| - 1]))
  }

  /** The keys of `ks` without repeats, in order of first occurrence. */
  function FirstOccurrences<K(==)>(ks: seq<K>): seq<K> {
    if ks == [] then []
    else
      var d := FirstOccurrences(ks[..|ks| - 1]);
      if ks[|ks| - 1] in d then d else d + [ks[|ks| - 1]]
  }

  function KeysOf<T, K>(xs: seq<T>, key: T -> K): seq<K> {
    seq(|xs|, i requires 0 <= i < |xs| => key(xs[i]))
  }

  /** The test "this row has key `k`". */
  function HasKey<T, K(==)>(key: T -> K, k: K): T -> bool {
    (x: T) => key(x) == k
  }

  /** The total a bucket should hold: the weights of the rows with that key. */
  function KeyTotal<T, K(==)>(xs: seq<T>, key: T -> K, weight: T -> int, k: K): int {
    Sum(Filter(xs, HasKey(key, k)), weight)
  }

  /** The buckets appear in the order their keys first occur, one per key. */
  lemma {:induction false} GroupSumKeys<T, K>(xs: seq<T>, key: T -> K, weight: T -> int)
    ensures Keys(GroupSum(xs, key, weight)) == FirstOccurrences(KeysOf(xs, key))
    decreases |xs|
  {
    if xs != [] {
      var init := xs[..|xs| - 1];
      GroupSumKeys(init, key, weight);
      BumpKeys(GroupSum(init, key, weight), key(xs[|xs| - 1]), weight(xs[|xs| - 1]));
      assert KeysOf(xs, key)[..|xs| - 1] == KeysOf(init, key);
    }
  }

  lemma {:induction false} FirstOccurrencesDistinct<K>(ks: seq<K>)
    ensures forall i, j :: 0 <= i < j < |FirstOccurrences(ks)| ==> FirstOccurrences(ks)[i] != FirstOccurrences(ks)[j]
    ensures forall k :: k in FirstOccurrences(ks) <==> k in ks
    decreases |ks|
  {
    if ks != [] {
      var init := ks[..|ks| - 1];
      FirstOccurrencesDistinct(init);
      assert ks == init + [ks[|ks| - 1]];
    }
  }

  /** No key has two buckets, and a key has a bucket exactly when some row has it. */
  lemma GroupSumDistinct<T, K>(xs: seq<T>, key: T -> K, weight: T -> int)
    ensures DistinctKeys(GroupSum(xs, key, weight))
    ensures forall k :: k in Keys(GroupSum(xs, key, weight)) <==> k in KeysOf(xs, key)
  {
    var g := GroupSum(xs, key, weight);
    GroupSumKeys(xs, key, weight);
    FirstOccurrencesDistinct(KeysOf(xs, key));
    forall i, j | 0 <= i < j < |g| ensures g[i].key != g[j].key {
      assert Keys(g)[i] == g[i].key && Keys(g)[j] == g[j].key;
    }
  }

  /** A key has a bucket exactly when some row has that key. */
  lemma HasBucketIffCounted<T, K>(xs: seq<T>, key: T -> K, weight: T -> int, k: K)
    ensures k in Keys(GroupSum(xs, key, weight)) <==> Count(xs, HasKey(key, k)) > 0
  {
    GroupSumDistinct(xs, key, weight);
    var f := Filter(xs, HasKey(key, k));
    if |f| > 0 {
      assert f[0] in xs && HasKey(key, k)(f[0]);
      var j :| 0 <= j < |xs| && xs[j] == f[0];
      assert KeysOf(xs, key)[j] == k;
    }
    if k in KeysOf(xs, key) {
      var j :| 0 <= j < |xs| && KeysOf(xs, key)[j] == k;
      assert HasKey(key, k)(xs[j]);
      assert xs[j] in f;
    }
  }

  /** Every bucket of `g` holds the total of the rows of `xs` with its key. */
  predicate TotalsMatch<T, K(==)>(g: seq<Bucket<K>>, xs: seq<T>, key: T -> K, weight: T -> int) {
    forall i :: 0 <= i < |g| ==> g[i].total == KeyTotal(xs, key, weight, g[i].key)
  }

  /** Each bucket holds the total of the weights of the rows with its key. */
  lemma {:induction false} GroupSumTotals<T, K>(xs: seq<T>, key: T -> K, weight: T -> int)
    ensures TotalsMatch(GroupSum(xs, key, weight), xs, key, weight)
    decreases |xs|
  {
    if xs != [] {
      var init := xs[..|xs| - 1];
      var last := xs[|xs| - 1];
      var g0 := GroupSum(init, key, weight);
      var g := GroupSum(xs, key, weight);
      assert xs == init + [last];
      assert g == Bump(g0, key(last), weight(last));
      GroupSumTotals(init, key, weight);
      GroupSumDistinct(init, key, weight);
      forall i | 0 <= i < |g| ensures g[i].total == KeyTotal(xs, key, weight, g[i].key) {
        BumpTotalAt(init, last, key, weight, g0, i);
      }
    }
  }

  /** One bucket after a row is added: the bucket of the row's key gains its
      weight, a new bucket starts at it, and the others keep their totals. */
  lemma BumpTotalAt<T, K>(init: seq<T>, last: T, key: T -> K, weight: T -> int, g0: seq<Bucket<K>>, i: nat)
    requires DistinctKeys(g0)
    requires forall k :: k in Keys(g0) <==> k in KeysOf(init, key)
    requires TotalsMatch(g0, init, key, weight)
    requires i < |Bump(g0, key(last), weight(last))|
    ensures var g := Bump(g0, key(last), weight(last));
      g[i].total == KeyTotal(init + [last], key, weight, g[i].key)
  {
    var g := Bump(g0, key(last), weight(last));
    var idx := IndexOfKey(g0, key(last));
    var k := g[i].key;
    KeyTotalAppend(init, last, key, weight, k);
    if i < |g0| {
      assert k == g0[i].key;
      assert (i == idx) == (g0[i].key == key(last));
    } else {
      assert k == key(last);
      assert k !in Keys(g0) by {
        forall j | 0 <= j < |g0| ensures Keys(g0)[j] != k {
        }
      }
      NewKeyTotal(init, key, weight, k);
    }
  }

  lemma KeyTotalAppend<T, K>(init: seq<T>, last: T, key: T -> K, weight: T -> int, k: K)
    ensures KeyTotal(init + [last], key, weight, k)
         == KeyTotal(init, key, weight, k) + (if key(last) == k then weight(last) else 0)
  {
    FilterAppend(init, [last], HasKey(key, k));
    SumAppend(Filter(init, HasKey(key, k)), Filter([last], HasKey(key, k)), weight);
  }

  /** A key no row has totals zero. */
  lemma NewKeyTotal<T, K>(xs: seq<T>, key: T -> K, weight: T -> int, k: K)
    requires k !in KeysOf(xs, key)
    ensures KeyTotal(xs, key, weight, k) == 0
  {
    forall j | 0 <= j < |xs| ensures key(xs[j]) != k {
      assert KeysOf(xs, key)[j] == key(xs[j]);
    }
    FilterNone(xs, HasKey(key, k));
  }

  /** The buckets' totals add up to the total over all rows. */
  lemma {:induction false} GroupSumTotal<T, K>(xs: seq<T>, key: T -> K, weight: T -> int)
    ensures TotalOf(GroupSum(xs, key, weight)) == Sum(xs, weight)
    decreases |xs|
  {
    if xs != [] {
      var init := xs[..|xs| - 1];
      var last := xs[|xs| - 1];
      GroupSumTotal(init, key, weight);
      BumpTotal(GroupSum(init, key, weight), key(last), weight(last));
      assert xs == init + [last];
      SumAppend(init, [last], weight);
    }
  }

  function TotalOf<K>(g: seq<Bucket<K>>): int {
    if g == [] then 0 else g[0].total + TotalOf(g[1..])
  }

  lemma BumpTotal<K>(g: seq<Bucket<K>>, k: K, w: int)
    ensures TotalOf(Bump(g, k, w)) == TotalOf(g) + w
  {
    var i := IndexOfKey(g, k);
    if i == |g| {
      TotalOfAppend(g, Bucket(k, w));
    } else {
      TotalOfUpdate(g, i, Bucket(k, g[i].total + w));
    }
  }

  lemma {:induction false} TotalOfAppend<K>(g: seq<Bucket<K>>, b: Bucket<K>)
    ensures TotalOf(g + [b]) == TotalOf(g) + b.total
    decreases |g|
  {
    if g == [] {
      assert g + [b] == [b];
    } else {
      assert (g + [b])[1..] == g[1..] + [b];
      TotalOfAppend(g[1..], b);
    }
  }

  lemma {:induction false} TotalOfUpdate<K>(g: seq<Bucket<K>>, i: nat, b: Bucket<K>)
    requires i < |g|
    ensures TotalOf(g[i := b]) == TotalOf(g) - g[i].total + b.total
    decreases |g|
  {
    if i > 0 {
      assert g[i := b][1..] == g[1..][i - 1 := b];
      TotalOfUpdate(g[1..], i - 1, b);
    } else {
      assert g[i := b][1..] == g[1..];
    }
  }

  function One<T>(x: T): int {
    1
  }

  /** Counting buckets: every bucket counts at least one row. */
  lemma CountBucketsPositive<T, K>(xs: seq<T>, key: T -> K)
    ensures var g := GroupSum(xs, key, One);
      forall i :: 0 <= i < |g| ==> g[i].total >= 1
  {
    var g := GroupSum(xs, key, One);
    GroupSumTotals(xs, key, One);
    GroupSumDistinct(xs, key, One);
    forall i | 0 <= i < |g| ensures g[i].total >= 1 {
      var k := g[i].key;
      assert Keys(g)[i] == k;
      var j :| 0 <= j < |xs| && key(xs[j]) == k;
      CountHit(xs, key, k, j);
    }
  }

  lemma {:induction false} CountHit<T, K>(xs: seq<T>, key: T -> K, k: K, j: nat)
    requires j < |xs| && key(xs[j]) == k
    ensures KeyTotal(xs, key, One, k) >= 1
    decreases |xs|
  {
    var f := Filter(xs, HasKey(key, k));
    assert xs[j] in f;
    SumNonNegative(f, One);
    var m :| 0 <= m < |f| && f[m] == xs[j];
    SumAtLeastOne(f, m);
  }

  lemma {:induction false} SumAtLeastOne<T>(f: seq<T>, m: nat)
    requires m < |f|
    ensures Sum(f, One) >= 1
    decreases |f|
  {
    SumNonNegative(f[1..], One);
  }

  /** Counting with weight one gives the length. */
  lemma {:induction false} SumOfOnes<T>(xs: seq<T>)
    ensures Sum(xs, One) == |xs|
    decreases |xs|
  {
    if xs != [] {
      SumOfOnes(xs[1..]);
    }
  }

  /** A key's total does not depend on the order of the rows. */
  lemma KeyTotalPermutation<T, K>(a: seq<T>, b: seq<T>, key: T -> K, weight: T -> int, k: K)
    requires multiset(a) == multiset(b)
    ensures KeyTotal(a, key, weight, k) == KeyTotal(b, key, weight, k)
  {
    SumFilterMasked(a, HasKey(key, k), weight);
    SumFilterMasked(b, HasKey(key, k), weight);
    SumPermutation(a, b, Masked(HasKey(key, k), weight));
  }

  /** Grouping a reordering of the rows gives buckets whose totals are
      those of the original rows. */
  lemma GroupSumPermutation<T, K>(xs: seq<T>, ys: seq<T>, key: T -> K, weight: T -> int)
    requires multiset(xs) == multiset(ys)
    ensures var g := GroupSum(ys, key, weight);
      TotalsMatch(g, xs, key, weight) && DistinctKeys(g) && TotalOf(g) == Sum(xs, weight)
  {
    var g := GroupSum(ys, key, weight);
    GroupSumTotals(ys, key, weight);
    GroupSumDistinct(ys, key, weight);
    GroupSumTotal(ys, key, weight);
    SumPermutation(xs, ys, weight);
    forall i | 0 <= i < |g| ensures g[i].total == KeyTotal(xs, key, weight, g[i].key) {
      KeyTotalPermutation(xs, ys, key, weight, g[i].key);
    }
  }
}
