// Stable sorting by an integer key, largest key first: JavaScript's
// Array.prototype.sort with `(a, b) => key(b) - key(a)` and Java's
// Comparator.reversed() sorts are both stable, so elements with equal keys
// keep their input order.
module Sorting {
  predicate SortedDesc<T>(s: seq<T>, key: T -> int)
  {
    forall i, j :: 0 <= i < j < |s| ==> key(s[i]) >= key(s[j])
  }

  /** Insert `x` before the first element whose key is not larger. */
  function InsertDesc<T>(x: T, s: seq<T>, key: T -> int): (r: seq<T>)
    ensures multiset(r) == multiset(s) + multiset{x}
    ensures |r| == |s| + 1
  {
    if |s| == 0 || key(x) >= key(s[0]) then [x] + s
    else
      assert s == [s[0]] + s[1..];
      [s[0]] + InsertDesc(x, s[1..], key)
  }

  lemma {:induction false} InsertUpperBound<T>(x: T, s: seq<T>, key: T -> int, b: int)
    requires key(x) <= b
    requires forall k :: 0 <= k < |s| ==> key(s[k]) <= b
    ensures forall k :: 0 <= k < |InsertDesc(x, s, key)| ==> key(InsertDesc(x, s, key)[k]) <= b
  {
    if |s| > 0 && key(x) < key(s[0]) {
      InsertUpperBound(x, s[1..], key, b);
    }
  }

  lemma {:induction false} InsertKeepsSortedDesc<T>(x: T, s: seq<T>, key: T -> int)
    requires SortedDesc(s, key)
    ensures SortedDesc(InsertDesc(x, s, key), key)
  {
    if |s| > 0 && key(x) < key(s[0]) {
      InsertKeepsSortedDesc(x, s[1..], key);
      InsertUpperBound(x, s[1..], key, key(s[0]));
    }
  }

  /** Descending sort by insertion: sorted, and a permutation of the input; stable by SortDescStable. */
  function SortDesc<T>(s: seq<T>, key: T -> int): (r: seq<T>)
    ensures SortedDesc(r, key)
    ensures multiset(r) == multiset(s)
    ensures |r| == |s|
  {
    if |s| == 0 then []
    else
      assert s == [s[0]] + s[1..];
      var rest := SortDesc(s[1..], key);
      InsertKeepsSortedDesc(s[0], rest, key);
      InsertDesc(s[0], rest, key)
  }

  /** The elements whose key is `k`, in their order in `s`. */
  function WithKey<T>(s: seq<T>, key: T -> int, k: int): (r: seq<T>)
    ensures |r| <= |s|
    ensures forall i :: 0 <= i < |r| ==> key(r[i]) == k
  {
    if |s| == 0 then []
    else if key(s[0]) == k then [s[0]] + WithKey(s[1..], key, k)
    else WithKey(s[1..], key, k)
  }

  /**
   * Inserting `x` puts it ahead of every element with the same key and
   * leaves the order among the others alone.
   */
  lemma {:induction false} InsertWithKey<T>(x: T, s: seq<T>, key: T -> int, k: int)
    ensures WithKey(InsertDesc(x, s, key), key, k) ==
      if key(x) == k then [x] + WithKey(s, key, k) else WithKey(s, key, k)
  {
    var r := InsertDesc(x, s, key);
    if |s| == 0 || key(x) >= key(s[0]) {
      assert r[1..] == s;
    } else {
      assert r[1..] == InsertDesc(x, s[1..], key);
      InsertWithKey(x, s[1..], key, k);
    }
  }

  /** The sort is stable: elements with equal keys keep their input order. */
  lemma {:induction false} SortDescStable<T>(s: seq<T>, key: T -> int, k: int)
    ensures WithKey(SortDesc(s, key), key, k) == WithKey(s, key, k)
  {
    if |s| > 0 {
      SortDescStable(s[1..], key, k);
      InsertWithKey(s[0], SortDesc(s[1..], key), key, k);
    }
  }

  /** Sorting keeps exactly the input's elements. */
  lemma {:induction false} SortDescMembers<T>(s: seq<T>, key: T -> int)
    ensures forall x :: x in SortDesc(s, key) <==> x in s
  {
    var r := SortDesc(s, key);
    forall x ensures x in r <==> x in s {
      assert x in r <==> x in multiset(r);
      assert x in s <==> x in multiset(s);
    }
  }

  /** In a descending sequence an element past the first `m` has a key no larger than any of them. */
  lemma {:induction false} PrefixDominates<T>(r: seq<T>, key: T -> int, m: nat, x: T)
    requires SortedDesc(r, key) && m <= |r|
    requires x in r && x !in r[..m]
    ensures forall y :: y in r[..m] ==> key(x) <= key(y)
  {
    var j :| 0 <= j < |r| && r[j] == x;
    assert forall i :: 0 <= i < m ==> r[..m][i] == r[i];
    assert j >= m;
    forall y | y in r[..m] ensures key(x) <= key(y) {
      var i :| 0 <= i < m && r[..m][i] == y;
      assert r[i] == y;
    }
  }

  /**
   * Taking the first `n` of a descending sort gives the `n` largest: every
   * element left out has a key no larger than any element kept.
   */
  lemma {:induction false} TopOfSortedDesc<T>(s: seq<T>, key: T -> int, n: nat, x: T)
    requires x in s
    requires x !in SortDesc(s, key)[..if n < |s| then n else |s|]
    ensures forall y :: y in SortDesc(s, key)[..if n < |s| then n else |s|] ==> key(x) <= key(y)
  {
    SortDescMembers(s, key);
    PrefixDominates(SortDesc(s, key), key, if n < |s| then n else |s|, x);
  }
}
