/** Python's `list.sort(key=..., reverse=...)` on a real-valued key, followed by the slice
    `[:k]` that keeps the top entries. The sort is modelled as a stable insertion sort;
    what the callers rely on is that the result is ordered by the key and is a permutation
    of the input. */
module Sorting {

  /** `a` may come before `b`: non-decreasing keys, or non-increasing when `descending`. */
  predicate InOrder(a: real, b: real, descending: bool)
  {
    if descending then a >= b else a <= b
  }

  predicate SortedBy<T>(s: seq<T>, key: T -> real, descending: bool)
  {
    forall i, j :: 0 <= i < j < |s| ==> InOrder(key(s[i]), key(s[j]), descending)
  }

  /** Places `x` in front of the first element it may precede. */
  function Insert<T>(x: T, s: seq<T>, key: T -> real, descending: bool): (r: seq<T>)
    ensures multiset(r) == multiset(s) + multiset{x}
    ensures |r| == |s| + 1
  {
    if s == [] then [x]
    else if InOrder(key(x), key(s[0]), descending) then [x] + s
    else
      assert s == [s[0]] + s[1..];
      [s[0]] + Insert(x, s[1..], key, descending)
  }

  /** Every element of `s` may follow a key `b`. */
  predicate AllAfter<T>(b: real, s: seq<T>, key: T -> real, descending: bool)
  {
    forall j :: 0 <= j < |s| ==> InOrder(b, key(s[j]), descending)
  }

  lemma {:induction false} InsertAllAfter<T>(b: real, x: T, s: seq<T>, key: T -> real, descending: bool)
    requires AllAfter(b, s, key, descending) && InOrder(b, key(x), descending)
    ensures AllAfter(b, Insert(x, s, key, descending), key, descending)
  {
    if s == [] {
      AllAfterCons(b, x, [], key, descending);
    } else if InOrder(key(x), key(s[0]), descending) {
      AllAfterCons(b, x, s, key, descending);
    } else {
      InsertAllAfter(b, x, s[1..], key, descending);
      AllAfterCons(b, s[0], Insert(x, s[1..], key, descending), key, descending);
    }
  }

  lemma AllAfterCons<T>(b: real, y: T, s: seq<T>, key: T -> real, descending: bool)
    requires AllAfter(b, s, key, descending) && InOrder(b, key(y), descending)
    ensures AllAfter(b, [y] + s, key, descending)
  {
    forall j | 0 <= j < |[y] + s|
      ensures InOrder(b, key(([y] + s)[j]), descending)
    {
      if j > 0 {
        assert ([y] + s)[j] == s[j - 1];
      }
    }
  }

  /** Inserting into a sorted sequence keeps it sorted. */
  lemma {:induction false} InsertSorted<T>(x: T, s: seq<T>, key: T -> real, descending: bool)
    requires SortedBy(s, key, descending)
    ensures SortedBy(Insert(x, s, key, descending), key, descending)
  {
    if s == [] {
    } else if InOrder(key(x), key(s[0]), descending) {
      SortedHead(key(x), s, key, descending);
      SortedCons(x, s, key, descending);
    } else {
      SortedTail(s, key, descending);
      InsertSorted(x, s[1..], key, descending);
      InsertAllAfter(key(s[0]), x, s[1..], key, descending);
      SortedCons(s[0], Insert(x, s[1..], key, descending), key, descending);
    }
  }

  /** A key that may precede the head of a sorted sequence may precede all of it. */
  lemma SortedHead<T>(b: real, s: seq<T>, key: T -> real, descending: bool)
    requires SortedBy(s, key, descending) && s != [] && InOrder(b, key(s[0]), descending)
    ensures AllAfter(b, s, key, descending)
  {
  }

  /** The tail of a sorted sequence is sorted and may follow its head. */
  lemma SortedTail<T>(s: seq<T>, key: T -> real, descending: bool)
    requires SortedBy(s, key, descending) && s != []
    ensures SortedBy(s[1..], key, descending) && AllAfter(key(s[0]), s[1..], key, descending)
  {
    forall i, j | 0 <= i < j < |s[1..]|
      ensures InOrder(key(s[1..][i]), key(s[1..][j]), descending)
    {
      assert s[1..][i] == s[i + 1] && s[1..][j] == s[j + 1];
    }
    forall j | 0 <= j < |s[1..]|
      ensures InOrder(key(s[0]), key(s[1..][j]), descending)
    {
      assert s[1..][j] == s[j + 1];
    }
  }

  /** An element that may precede a sorted sequence extends it to a sorted sequence. */
  lemma SortedCons<T>(y: T, s: seq<T>, key: T -> real, descending: bool)
    requires SortedBy(s, key, descending) && AllAfter(key(y), s, key, descending)
    ensures SortedBy([y] + s, key, descending)
  {
    var r := [y] + s;
    forall i, j | 0 <= i < j < |r|
      ensures InOrder(key(r[i]), key(r[j]), descending)
    {
      assert r[j] == s[j - 1];
      if i > 0 {
        assert r[i] == s[i - 1];
      }
    }
  }

  /** The sort: ordered by key and a permutation of its input. */
  function SortBy<T>(s: seq<T>, key: T -> real, descending: bool): (r: seq<T>)
    ensures multiset(r) == multiset(s)
    ensures |r| == |s|
    ensures SortedBy(r, key, descending)
  {
    if s == [] then []
    else
      assert s == [s[0]] + s[1..];
      var rest := SortBy(s[1..], key, descending);
      InsertSorted(s[0], rest, key, descending);
      Insert(s[0], rest, key, descending)
  }

  /** Python's slice `s[:k]`: the first `k` elements, or all but the last `-k` when `k` is
      negative. */
  function TakePy<T>(s: seq<T>, k: int): (r: seq<T>)
    ensures |r| <= |s| && r == s[..|r|]
    ensures k >= 0 ==> |r| == (if k < |s| then k else |s|)
    ensures k < 0 ==> |r| == (if -k < |s| then |s| + k else 0)
  {
    if k >= 0 then (if k < |s| then s[..k] else s)
    else if -k < |s| then s[..|s| + k] else []
  }

  /** A prefix of a sorted sequence is sorted, and holds only elements of the sequence. */
  lemma TakeSorted<T>(s: seq<T>, k: int, key: T -> real, descending: bool)
    requires SortedBy(s, key, descending)
    ensures SortedBy(TakePy(s, k), key, descending)
    ensures multiset(TakePy(s, k)) <= multiset(s)
  {
    var r := TakePy(s, k);
    assert s == r + s[|r|..];
  }
}
