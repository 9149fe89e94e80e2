/**
 * A stable insertion sort on an integer key, standing for Python's sorted()
 * and list.sort(key=...), which are stable.
 */
module Sorting {

  predicate SortedBy<T>(s: seq<T>, key: T -> int) {
    forall i, j :: 0 <= i < j < |s| ==> key(s[i]) <= key(s[j])
  }

  /** Sorted by `key`, and among equal keys by strictly increasing `tie`. */
  predicate LexSortedBy<T>(s: seq<T>, key: T -> int, tie: T -> int) {
    forall i, j :: 0 <= i < j < |s| ==>
      key(s[i]) < key(s[j]) || (key(s[i]) == key(s[j]) && tie(s[i]) < tie(s[j]))
  }

  predicate StrictlyIncreasing<T>(s: seq<T>, tie: T -> int) {
    forall i, j :: 0 <= i < j < |s| ==> tie(s[i]) < tie(s[j])
  }

  /** Every element's tie is above b. */
  predicate TiesAbove<T>(s: seq<T>, tie: T -> int, b: int) {
    forall k :: 0 <= k < |s| ==> b < tie(s[k])
  }

  /** A head no greater than the first element of a sorted sequence keeps it sorted. */
  lemma ConsSorted<T>(h: T, s: seq<T>, key: T -> int)
    requires SortedBy(s, key) && s != [] && key(h) <= key(s[0])
    ensures SortedBy([h] + s, key)
  {
    var r := [h] + s;
    forall i, j | 0 <= i < j < |r| ensures key(r[i]) <= key(r[j]) {
      if i == 0 {
        assert r[j] == s[j - 1];
      } else {
        assert r[i] == s[i - 1] && r[j] == s[j - 1];
      }
    }
  }

  /** Puts x in front of the first element whose key is not smaller. */
  function Insert<T>(x: T, s: seq<T>, key: T -> int): (r: seq<T>)
    requires SortedBy(s, key)
    ensures SortedBy(r, key)
    ensures |r| == |s| + 1
    ensures s == [] ==> r == [x]
    ensures s != [] ==> r[0] == x || r[0] == s[0]
  {
    if s == [] then [x]
    else if key(x) <= key(s[0]) then
      ConsSorted(x, s, key);
      [x] + s
    else
      var rest := Insert(x, s[1..], key);
      assert key(s[0]) <= key(rest[0]) by {
        if s[1..] != [] { assert s[1..][0] == s[1]; }
      }
      ConsSorted(s[0], rest, key);
      [s[0]] + rest
  }

  /** Insertion adds x and keeps every element: a permutation of s with x. */
  lemma {:induction false} InsertPermutes<T>(x: T, s: seq<T>, key: T -> int)
    requires SortedBy(s, key)
    ensures multiset(Insert(x, s, key)) == multiset(s) + multiset{x}
  {
    if s != [] && key(x) > key(s[0]) {
      InsertPermutes(x, s[1..], key);
      assert s == [s[0]] + s[1..];
      assert Insert(x, s, key) == [s[0]] + Insert(x, s[1..], key);
    }
  }

  /** Insertion keeps a lower bound on the ties that x also respects. */
  lemma {:induction false} InsertTiesAbove<T>(x: T, s: seq<T>, key: T -> int, tie: T -> int, b: int)
    requires SortedBy(s, key) && TiesAbove(s, tie, b) && b < tie(x)
    ensures TiesAbove(Insert(x, s, key), tie, b)
  {
    if s != [] && key(x) > key(s[0]) {
      var rest := Insert(x, s[1..], key);
      InsertTiesAbove(x, s[1..], key, tie, b);
      var r := [s[0]] + rest;
      assert Insert(x, s, key) == r;
      forall k | 0 <= k < |r| ensures b < tie(r[k]) {
        if k > 0 { assert r[k] == rest[k - 1]; }
      }
    }
  }

  /** Stable sort by `key`. */
  function SortBy<T>(s: seq<T>, key: T -> int): (r: seq<T>)
    ensures SortedBy(r, key)
    ensures multiset(r) == multiset(s)
    ensures |r| == |s|
  {
    if s == [] then []
    else
      var rest := SortBy(s[1..], key);
      InsertPermutes(s[0], rest, key);
      assert s == [s[0]] + s[1..];
      Insert(s[0], rest, key)
  }

  /** Sorting keeps a lower bound on the ties. */
  lemma {:induction false} SortByTiesAbove<T>(s: seq<T>, key: T -> int, tie: T -> int, b: int)
    requires TiesAbove(s, tie, b)
    ensures TiesAbove(SortBy(s, key), tie, b)
  {
    if s != [] {
      SortByTiesAbove(s[1..], key, tie, b);
      InsertTiesAbove(s[0], SortBy(s[1..], key), key, tie, b);
    }
  }

  /** A head before the first element of a lexicographically sorted sequence keeps it sorted. */
  lemma ConsLex<T>(h: T, s: seq<T>, key: T -> int, tie: T -> int)
    requires LexSortedBy(s, key, tie) && s != []
    requires key(h) < key(s[0]) || (key(h) == key(s[0]) && tie(h) < tie(s[0]))
    ensures LexSortedBy([h] + s, key, tie)
  {
    var r := [h] + s;
    forall i, j | 0 <= i < j < |r|
      ensures key(r[i]) < key(r[j]) || (key(r[i]) == key(r[j]) && tie(r[i]) < tie(r[j]))
    {
      if i == 0 {
        assert r[j] == s[j - 1];
      } else {
        assert r[i] == s[i - 1] && r[j] == s[j - 1];
      }
    }
  }

  /** Inserting an element whose tie is below every other keeps the order lexicographic. */
  lemma {:induction false} InsertLex<T>(x: T, s: seq<T>, key: T -> int, tie: T -> int)
    requires SortedBy(s, key) && LexSortedBy(s, key, tie)
    requires TiesAbove(s, tie, tie(x))
    ensures LexSortedBy(Insert(x, s, key), key, tie)
  {
    if s == [] {
    } else if key(x) <= key(s[0]) {
      ConsLex(x, s, key, tie);
    } else {
      var rest := Insert(x, s[1..], key);
      InsertLex(x, s[1..], key, tie);
      if s[1..] != [] { assert s[1..][0] == s[1]; }
      ConsLex(s[0], rest, key, tie);
    }
  }

  /**
   * Stability: when the input comes in strictly increasing `tie` order (insertion
   * order), elements with equal keys keep that order in the output.
   */
  lemma {:induction false} SortByStable<T>(s: seq<T>, key: T -> int, tie: T -> int)
    requires StrictlyIncreasing(s, tie)
    ensures LexSortedBy(SortBy(s, key), key, tie)
  {
    if s != [] {
      var rest := SortBy(s[1..], key);
      SortByStable(s[1..], key, tie);
      SortByTiesAbove(s[1..], key, tie, tie(s[0]));
      InsertLex(s[0], rest, key, tie);
    }
  }
}
