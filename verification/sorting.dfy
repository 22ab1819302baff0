/** Stable sorting by an integer key and taking a prefix: the
    `sort((a, b) => a.k - b.k)` and `slice(0, n)` steps of the dashboard's
    rankings. */
module Sorting {

  /** `s` is in ascending order of `key`. */
  predicate SortedBy<T>(s: seq<T>, key: T -> int) {
    forall i, j :: 0 <= i < j < |s| ==> key(s[i]) <= key(s[j])
  }

  /** `s` is in descending order of `key`. */
  predicate SortedDescBy<T>(s: seq<T>, key: T -> int) {
    forall i, j :: 0 <= i < j < |s| ==> key(s[i]) >= key(s[j])
  }

  /** Inserts `x` before the first element whose key is not smaller, so
      that `x` precedes the equal keys that came after it in the input. */
  function InsertBy<T(==)>(x: T, s: seq<T>, key: T -> int): (r: seq<T>)
    ensures |r| == |s| + 1
    ensures multiset(r) == multiset(s) + multiset{x}
  {
    if s == [] || key(x) <= key(s[0]) then [x] + s
    else
      assert s == [s[0]] + s[1..];
      [s[0]] + InsertBy(x, s[1..], key)
  }

  /** Inserting into a sorted sequence keeps it sorted. */
  lemma {:induction false} InsertSorted<T>(x: T, s: seq<T>, key: T -> int)
    requires SortedBy(s, key)
    ensures SortedBy(InsertBy(x, s, key), key)
    decreases |s|
  {
    if s != [] && key(x) > key(s[0]) {
      var rest := InsertBy(x, s[1..], key);
      InsertSorted(x, s[1..], key);
      forall k | 0 <= k < |rest| ensures key(s[0]) <= key(rest[k]) {
        assert rest[k] in multiset(rest);
        assert rest[k] == x || rest[k] in multiset(s[1..]);
        if rest[k] != x {
          var m :| 0 <= m < |s[1..]| && s[1..][m] == rest[k];
          assert s[m + 1] == rest[k];
        }
      }
    }
  }

  /** Stable insertion sort, ascending by `key`. */
  function SortBy<T(==)>(s: seq<T>, key: T -> int): (r: seq<T>)
    ensures multiset(r) == multiset(s)
    ensures SortedBy(r, key)
  {
    if s == [] then []
    else
      assert s == [s[0]] + s[1..];
      InsertSorted(s[0], SortBy(s[1..], key), key);
      InsertBy(s[0], SortBy(s[1..], key), key)
  }

  /** Stable sort, descending by `key` (`sort((a, b) => b.k - a.k)`). */
  function SortDescBy<T(==)>(s: seq<T>, key: T -> int): (r: seq<T>)
    ensures multiset(r) == multiset(s)
    ensures SortedDescBy(r, key)
  {
    var r := SortBy(s, (x: T) => -key(x));
    assert forall i, j :: 0 <= i < j < |r| ==> -key(r[i]) <= -key(r[j]);
    r
  }

  /** `s.slice(0, n)`. */
  function Take<T>(s: seq<T>, n: nat): (r: seq<T>)
    ensures |r| == if |s| <= n then |s| else n
    ensures r <= s
  {
    if |s| <= n then s else s[..n]
  }

  /** The first `n` of a descending sort are a top `n`: every element of the
      input either is among them or has a key no larger than any of theirs. */
  lemma TopOfSortDesc<T>(s: seq<T>, key: T -> int, n: nat, y: T)
    requires y in s
    ensures var top := Take(SortDescBy(s, key), n);
      y in top || forall i :: 0 <= i < |top| ==> key(y) <= key(top[i])
  {
    var sorted := SortDescBy(s, key);
    var top := Take(sorted, n);
    assert y in multiset(sorted);
    var j :| 0 <= j < |sorted| && sorted[j] == y;
    if j < |top| {
      assert top[j] == y;
    } else {
      forall i | 0 <= i < |top| ensures key(y) <= key(top[i]) {
        assert top[i] == sorted[i];
      }
    }
  }

  /** The first `n` of a descending sort: `n` of them, or all when there
      are fewer, still in descending order, and all from the input. */
  lemma TakeOfSortDesc<T>(s: seq<T>, key: T -> int, n: nat)
    ensures var top := Take(SortDescBy(s, key), n);
      |top| == (if |s| <= n then |s| else n)
      && SortedDescBy(top, key)
      && forall i :: 0 <= i < |top| ==> top[i] in s
    ensures multiset(Take(SortDescBy(s, key), n)) <= multiset(s)
  {
    TakeOfSortFromInput(s, key, n);
    var sorted := SortDescBy(s, key);
    assert |multiset(sorted)| == |multiset(s)|;
    var top := Take(sorted, n);
    forall i | 0 <= i < |top| ensures top[i] in s {
      assert top[i] == sorted[i];
      assert sorted[i] in multiset(s);
    }
  }

  /** Everything taken from a sort comes from its input. */
  lemma TakeOfSortFromInput<T>(s: seq<T>, key: T -> int, n: nat)
    ensures var top := Take(SortDescBy(s, key), n);
      multiset(top) <= multiset(s)
  {
    var sorted := SortDescBy(s, key);
    var top := Take(sorted, n);
    assert sorted == top + sorted[|top|..];
  }
}
