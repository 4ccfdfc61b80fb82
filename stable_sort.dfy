/** A stable sort by a real-valued key, the behaviour of JavaScript's
    `Array.prototype.sort` with a numeric comparator (stable since ES2019).
    It is characterised by three facts proved below: the result is ordered
    by the key, it is a permutation of the input, and for every key value the
    elements carrying that key appear in the same order as in the input. */
module StableSort {

  /** `s` is non-decreasing in `key`. */
  ghost predicate SortedBy<T>(s: seq<T>, key: T -> real) {
    forall i, j :: 0 <= i < j < |s| ==> key(s[i]) <= key(s[j])
  }

  /** The subsequence of `s` whose elements have key `k`, in order. */
  function WithKey<T>(s: seq<T>, key: T -> real, k: real): seq<T> {
    if s == [] then []
    else (if key(s[0]) == k then [s[0]] else []) + WithKey(s[1..], key, k)
  }

  /** Places `x` after every element whose key is at most `key(x)`. */
  function Insert<T>(s: seq<T>, x: T, key: T -> real): seq<T> {
    if s == [] then [x]
    else if key(x) < key(s[0]) then [x] + s
    else [s[0]] + Insert(s[1..], x, key)
  }

  /** Insertion sort: each element, taken in input order, goes after the
      elements already placed with a key not above its own. */
  function SortBy<T>(s: seq<T>, key: T -> real): seq<T> {
    if s == [] then [] else Insert(SortBy(s[..|s| - 1], key), s[|s| - 1], key)
  }

  lemma {:induction false} WithKeyAppend<T>(a: seq<T>, b: seq<T>, key: T -> real, k: real)
    ensures WithKey(a + b, key, k) == WithKey(a, key, k) + WithKey(b, key, k)
  {
    if a != [] {
      assert (a + b)[1..] == a[1..] + b;
      WithKeyAppend(a[1..], b, key, k);
    } else {
      assert a + b == b;
    }
  }

  lemma {:induction false} WithKeyAbsent<T>(s: seq<T>, key: T -> real, k: real)
    requires forall i :: 0 <= i < |s| ==> key(s[i]) != k
    ensures WithKey(s, key, k) == []
  {
    if s != [] {
      WithKeyAbsent(s[1..], key, k);
    }
  }

  lemma {:induction false} InsertPermutes<T>(s: seq<T>, x: T, key: T -> real)
    ensures multiset(Insert(s, x, key)) == multiset(s) + multiset{x}
  {
    if s != [] && key(s[0]) <= key(x) {
      InsertPermutes(s[1..], x, key);
      assert s == [s[0]] + s[1..];
    }
  }

  /** A lower bound on the keys of `s` and of `x` bounds the keys after
      insertion. */
  lemma {:induction false} InsertBounded<T>(s: seq<T>, x: T, key: T -> real, lo: real)
    requires forall i :: 0 <= i < |s| ==> lo <= key(s[i])
    requires lo <= key(x)
    ensures forall i :: 0 <= i < |Insert(s, x, key)| ==> lo <= key(Insert(s, x, key)[i])
  {
    if s != [] && key(s[0]) <= key(x) {
      InsertBounded(s[1..], x, key, lo);
      var r := Insert(s[1..], x, key);
      assert Insert(s, x, key) == [s[0]] + r;
    }
  }

  /** An element below every key of a sorted sequence can go in front. */
  lemma ConsSorted<T>(a: T, r: seq<T>, key: T -> real)
    requires SortedBy(r, key)
    requires forall i :: 0 <= i < |r| ==> key(a) <= key(r[i])
    ensures SortedBy([a] + r, key)
  {
    var u := [a] + r;
    forall i, j | 0 <= i < j < |u| ensures key(u[i]) <= key(u[j]) {
      assert u[j] == r[j - 1];
      if 0 < i {
        assert u[i] == r[i - 1];
      }
    }
  }

  lemma {:induction false} InsertSorted<T>(s: seq<T>, x: T, key: T -> real)
    requires SortedBy(s, key)
    ensures SortedBy(Insert(s, x, key), key)
  {
    if s == [] {
    } else if key(x) < key(s[0]) {
      ConsSorted(x, s, key);
    } else {
      var t := s[1..];
      assert SortedBy(t, key) by {
        forall i, j | 0 <= i < j < |t| ensures key(t[i]) <= key(t[j]) {
          assert t[i] == s[i + 1] && t[j] == s[j + 1];
        }
      }
      InsertSorted(t, x, key);
      assert forall i :: 0 <= i < |t| ==> key(s[0]) <= key(t[i]) by {
        forall i | 0 <= i < |t| ensures key(s[0]) <= key(t[i]) {
          assert t[i] == s[i + 1];
        }
      }
      InsertBounded(t, x, key, key(s[0]));
      ConsSorted(s[0], Insert(t, x, key), key);
    }
  }

  lemma {:induction false} InsertWithKey<T>(s: seq<T>, x: T, key: T -> real, k: real)
    requires SortedBy(s, key)
    ensures WithKey(Insert(s, x, key), key, k) == WithKey(s, key, k) + WithKey([x], key, k)
  {
    if s == [] {
      assert Insert(s, x, key) == [x];
    } else if key(x) < key(s[0]) {
      InsertBeforeAll(s, x, key, k);
    } else {
      var r := Insert(s[1..], x, key);
      assert Insert(s, x, key) == [s[0]] + r;
      InsertWithKey(s[1..], x, key, k);
      WithKeyAppend([s[0]], r, key, k);
      assert s == [s[0]] + s[1..];
      WithKeyAppend([s[0]], s[1..], key, k);
    }
  }

  lemma InsertBeforeAll<T>(s: seq<T>, x: T, key: T -> real, k: real)
    requires SortedBy(s, key) && s != [] && key(x) < key(s[0])
    ensures WithKey([x] + s, key, k) == WithKey(s, key, k) + WithKey([x], key, k)
  {
    WithKeyAppend([x], s, key, k);
    if key(x) == k {
      WithKeyAbsent(s, key, k);
    } else {
      assert WithKey([x], key, k) == [];
    }
  }

  lemma {:induction false} SortBySorted<T>(s: seq<T>, key: T -> real)
    ensures SortedBy(SortBy(s, key), key)
  {
    if s != [] {
      SortBySorted(s[..|s| - 1], key);
      InsertSorted(SortBy(s[..|s| - 1], key), s[|s| - 1], key);
    }
  }

  lemma {:induction false} SortByPermutes<T>(s: seq<T>, key: T -> real)
    ensures multiset(SortBy(s, key)) == multiset(s)
  {
    if s != [] {
      var p, last := s[..|s| - 1], s[|s| - 1];
      SortByPermutes(p, key);
      InsertPermutes(SortBy(p, key), last, key);
      assert s == p + [last];
    }
  }

  lemma {:induction false} SortByKeepsTies<T>(s: seq<T>, key: T -> real, k: real)
    ensures WithKey(SortBy(s, key), key, k) == WithKey(s, key, k)
  {
    if s != [] {
      var p, last := s[..|s| - 1], s[|s| - 1];
      SortByKeepsTies(p, key, k);
      SortBySorted(p, key);
      InsertWithKey(SortBy(p, key), last, key, k);
      assert s == p + [last];
      WithKeyAppend(p, [last], key, k);
    }
  }

  /** The three facts that make `SortBy` the stable sort: ordered, a
      permutation, and order-preserving among elements with equal keys. */
  lemma SortByIsStableSort<T>(s: seq<T>, key: T -> real)
    ensures SortedBy(SortBy(s, key), key)
    ensures multiset(SortBy(s, key)) == multiset(s)
    ensures |SortBy(s, key)| == |s|
    ensures forall k :: WithKey(SortBy(s, key), key, k) == WithKey(s, key, k)
  {
    SortBySorted(s, key);
    SortByPermutes(s, key);
    assert |SortBy(s, key)| == |multiset(SortBy(s, key))|;
    forall k ensures WithKey(SortBy(s, key), key, k) == WithKey(s, key, k) {
      SortByKeepsTies(s, key, k);
    }
  }

  /** Sorting two elements swaps them only when the second has the smaller
      key. */
  lemma SortByPair<T>(a: T, b: T, key: T -> real)
    ensures SortBy([a, b], key) == if key(b) < key(a) then [b, a] else [a, b]
  {
    assert [a, b][..1] == [a];
    assert [a][..0] == [];
    assert SortBy([a], key) == Insert([], a, key) == [a];
    assert SortBy([a, b], key) == Insert([a], b, key);
    if key(b) >= key(a) {
      assert [a][1..] == [];
    }
  }
}
