/** Kotlin's `sortedBy { key }` and `sortedByDescending { key }` on lists: stable
    sorts by an integer selector. A stable sort is characterised by three facts:
    the result is ordered by the key, it is a permutation of the input, and the
    elements that share a key keep their input order (`KeyFilter` below). */
module Sorting {

  ghost predicate SortedBy<T>(s: seq<T>, key: T -> int) {
    forall i, j :: 0 <= i < j < |s| ==> key(s[i]) <= key(s[j])
  }

  ghost predicate SortedDescendingBy<T>(s: seq<T>, key: T -> int) {
    forall i, j :: 0 <= i < j < |s| ==> key(s[i]) >= key(s[j])
  }

  /** The elements of `s` whose key is `k`, in the order they have in `s`. */
  function KeyFilter<T>(s: seq<T>, key: T -> int, k: int): (r: seq<T>)
    ensures |r| <= |s|
    ensures forall i :: 0 <= i < |r| ==> key(r[i]) == k
  {
    if s == [] then []
    else (if key(s[0]) == k then [s[0]] else []) + KeyFilter(s[1..], key, k)
  }

  /** Places `x` in front of the first element whose key is at least its own. */
  function Insert<T>(x: T, s: seq<T>, key: T -> int): seq<T> {
    if s == [] then [x]
    else if key(x) <= key(s[0]) then [x] + s
    else [s[0]] + Insert(x, s[1..], key)
  }

  /** Insertion sort: each element goes in front of the equal-keyed elements that
      follow it in the input, so the sort is stable. */
  function SortBy<T>(s: seq<T>, key: T -> int): seq<T> {
    if s == [] then [] else Insert(s[0], SortBy(s[1..], key), key)
  }

  function Negate<T>(key: T -> int): T -> int {
    (x: T) => -key(x)
  }

  /** `sortedByDescending`: Kotlin compares with `compareByDescending`, which is
      the ascending order of the negated key, and keeps equal elements in order. */
  function SortByDescending<T>(s: seq<T>, key: T -> int): seq<T> {
    SortBy(s, Negate(key))
  }

  lemma {:induction false} InsertPermutes<T>(x: T, s: seq<T>, key: T -> int)
    ensures multiset(Insert(x, s, key)) == multiset(s) + multiset{x}
  {
    if s != [] && key(x) > key(s[0]) {
      InsertPermutes(x, s[1..], key);
      assert s == [s[0]] + s[1..];
    }
  }

  /** A bound below `x` and every element of `s` bounds every element of the insertion. */
  lemma {:induction false} InsertLowerBound<T>(x: T, s: seq<T>, key: T -> int, b: int)
    requires key(x) >= b && forall i :: 0 <= i < |s| ==> key(s[i]) >= b
    ensures |Insert(x, s, key)| == |s| + 1
    ensures forall i :: 0 <= i < |Insert(x, s, key)| ==> key(Insert(x, s, key)[i]) >= b
  {
    if s != [] && key(x) > key(s[0]) {
      InsertLowerBound(x, s[1..], key, b);
    }
  }

  lemma {:induction false} InsertSorted<T>(x: T, s: seq<T>, key: T -> int)
    requires SortedBy(s, key)
    ensures SortedBy(Insert(x, s, key), key)
  {
    if s != [] && key(x) > key(s[0]) {
      var rest := Insert(x, s[1..], key);
      InsertSorted(x, s[1..], key);
      InsertLowerBound(x, s[1..], key, key(s[0]));
      var r := [s[0]] + rest;
      forall i, j | 0 <= i < j < |r| ensures key(r[i]) <= key(r[j]) {
        assert r[j] == rest[j - 1];
        if i > 0 {
          assert r[i] == rest[i - 1];
        }
      }
    }
  }

  lemma {:induction false} InsertKeyFilter<T>(x: T, s: seq<T>, key: T -> int, k: int)
    ensures KeyFilter(Insert(x, s, key), key, k) == (if key(x) == k then [x] else []) + KeyFilter(s, key, k)
  {
    if s == [] {
    } else if key(x) <= key(s[0]) {
      assert ([x] + s)[1..] == s;
    } else {
      var rest := Insert(x, s[1..], key);
      InsertKeyFilter(x, s[1..], key, k);
      assert ([s[0]] + rest)[1..] == rest;
    }
  }

  lemma {:induction false} SortBySorted<T>(s: seq<T>, key: T -> int)
    ensures SortedBy(SortBy(s, key), key)
  {
    if s != [] {
      SortBySorted(s[1..], key);
      InsertSorted(s[0], SortBy(s[1..], key), key);
    }
  }

  lemma {:induction false} SortByPermutes<T>(s: seq<T>, key: T -> int)
    ensures multiset(SortBy(s, key)) == multiset(s)
  {
    if s != [] {
      SortByPermutes(s[1..], key);
      InsertPermutes(s[0], SortBy(s[1..], key), key);
      assert s == [s[0]] + s[1..];
    }
  }

  lemma {:induction false} SortByKeyFilter<T>(s: seq<T>, key: T -> int, k: int)
    ensures KeyFilter(SortBy(s, key), key, k) == KeyFilter(s, key, k)
  {
    if s != [] {
      SortByKeyFilter(s[1..], key, k);
      InsertKeyFilter(s[0], SortBy(s[1..], key), key, k);
    }
  }

  /** `SortBy` is a stable sort: ordered, a permutation, and equal keys keep their order. */
  lemma SortByIsStableSort<T>(s: seq<T>, key: T -> int)
    ensures SortedBy(SortBy(s, key), key)
    ensures multiset(SortBy(s, key)) == multiset(s)
    ensures forall k :: KeyFilter(SortBy(s, key), key, k) == KeyFilter(s, key, k)
  {
    SortBySorted(s, key);
    SortByPermutes(s, key);
    forall k ensures KeyFilter(SortBy(s, key), key, k) == KeyFilter(s, key, k) {
      SortByKeyFilter(s, key, k);
    }
  }

  /** Filtering on the negated key is filtering on the key. */
  lemma {:induction false} KeyFilterNegate<T>(s: seq<T>, key: T -> int, k: int)
    ensures KeyFilter(s, Negate(key), -k) == KeyFilter(s, key, k)
  {
    if s != [] {
      KeyFilterNegate(s[1..], key, k);
    }
  }

  /** `SortByDescending` is a stable descending sort. */
  lemma SortByDescendingIsStableSort<T>(s: seq<T>, key: T -> int)
    ensures SortedDescendingBy(SortByDescending(s, key), key)
    ensures multiset(SortByDescending(s, key)) == multiset(s)
    ensures forall k :: KeyFilter(SortByDescending(s, key), key, k) == KeyFilter(s, key, k)
  {
    var r := SortByDescending(s, key);
    SortByIsStableSort(s, Negate(key));
    assert forall i :: 0 <= i < |r| ==> Negate(key)(r[i]) == -key(r[i]);
    forall k ensures KeyFilter(r, key, k) == KeyFilter(s, key, k) {
      KeyFilterNegate(r, key, k);
      KeyFilterNegate(s, key, k);
    }
  }
}
