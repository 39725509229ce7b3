/** Counting per key: the fold `counts[c] = counts.get(c, 0) + 1` that both the back end's
    class distribution and the detection panel's class counts perform. */
module Counting {

  /** How many times `x` occurs in `s`. */
  function Occurrences<T(==)>(s: seq<T>, x: T): nat
  {
    if s == [] then 0 else Occurrences(s[..|s| - 1], x) + (if s[|s| - 1] == x then 1 else 0)
  }

  /** `m.get(k, 0)`. */
  function Get<T(==)>(m: map<T, nat>, k: T): nat
  {
    if k in m then m[k] else 0
  }

  /** The fold over `s`, left to right. */
  function Tally<T(==)>(s: seq<T>): map<T, nat>
  {
    if s == [] then map[]
    else
      var m := Tally(s[..|s| - 1]);
      var x := s[|s| - 1];
      m[x := Get(m, x) + 1]
  }

  /** Folding one more element of `b` into the tally of `a + b[..j]`. */
  lemma TallyStep<T>(a: seq<T>, b: seq<T>, j: nat)
    requires j < |b|
    ensures var m := Tally(a + b[..j]); Tally(a + b[..j + 1]) == m[b[j] := Get(m, b[j]) + 1]
  {
    var s := a + b[..j + 1];
    assert s[..|s| - 1] == a + b[..j];
  }

  /** Each key's count is the number of its occurrences, and the keys are exactly the values
      that occur. */
  lemma {:induction false} TallyCounts<T(!new)>(s: seq<T>)
    ensures forall x :: Get(Tally(s), x) == Occurrences(s, x)
    ensures forall x :: x in Tally(s) <==> x in s
  {
    if s != [] {
      var front := s[..|s| - 1];
      TallyCounts(front);
      assert forall x :: x in s <==> x in front || x == s[|s| - 1] by {
        assert s == front + [s[|s| - 1]];
      }
    }
  }

  /** The sum of a map's values. */
  ghost function Total<T>(m: map<T, nat>): nat
    decreases |m|
  {
    if m == map[] then 0
    else
      var k :| k in m;
      assert |m - {k}| < |m| by {
        assert (m - {k}).Keys == m.Keys - {k};
      }
      m[k] + Total(m - {k})
  }

  /** The sum does not depend on which key is taken out first. */
  lemma {:induction false} TotalRemove<T>(m: map<T, nat>, k: T)
    requires k in m
    ensures Total(m) == m[k] + Total(m - {k})
    decreases |m|
  {
    var j :| j in m && Total(m) == m[j] + Total(m - {j});
    if j != k {
      var mj, mk := m - {j}, m - {k};
      assert mj.Keys == m.Keys - {j} && mk.Keys == m.Keys - {k};
      assert |mj| < |m| && |mk| < |m|;
      TotalRemove(mj, k);
      TotalRemove(mk, j);
      assert mj - {k} == mk - {j};
    }
  }

  /** One more occurrence of `k` adds one to the sum. */
  lemma TotalBump<T>(m: map<T, nat>, k: T)
    ensures Total(m[k := Get(m, k) + 1]) == Total(m) + 1
  {
    var n := m[k := Get(m, k) + 1];
    TotalRemove(n, k);
    if k in m {
      TotalRemove(m, k);
      assert n - {k} == m - {k};
    } else {
      assert n - {k} == m;
    }
  }

  /** The counts add up to the length of the sequence. */
  lemma {:induction false} TallyTotal<T>(s: seq<T>)
    ensures Total(Tally(s)) == |s|
  {
    if s != [] {
      TallyTotal(s[..|s| - 1]);
      TotalBump(Tally(s[..|s| - 1]), s[|s| - 1]);
    }
  }

  /** A prefix holds no more occurrences than the whole sequence. */
  lemma {:induction false} OccurrencesPrefix<T>(s: seq<T>, k: nat, x: T)
    requires k <= |s|
    ensures Occurrences(s[..k], x) <= Occurrences(s, x)
  {
    if k < |s| {
      var front := s[..|s| - 1];
      assert front[..k] == s[..k];
      OccurrencesPrefix(front, k, x);
    } else {
      assert s[..k] == s;
    }
  }

  /** Among the positions holding `x`, counting the occurrences up to and including each
      one numbers them 1, 2, ..., and every number up to the total is reached. */
  lemma {:induction false} OccurrenceAt<T>(s: seq<T>, x: T, n: nat)
    requires 1 <= n <= Occurrences(s, x)
    ensures exists i :: 0 <= i < |s| && s[i] == x && Occurrences(s[..i + 1], x) == n
  {
    var front := s[..|s| - 1];
    if n <= Occurrences(front, x) {
      OccurrenceAt(front, x, n);
      var i :| 0 <= i < |front| && front[i] == x && Occurrences(front[..i + 1], x) == n;
      assert front[..i + 1] == s[..i + 1];
    } else {
      assert s[..|s|] == s;
    }
  }

  /** A later position holding `x` is numbered higher. */
  lemma OccurrencesGrow<T>(s: seq<T>, i: nat, j: nat, x: T)
    requires i < j < |s| && s[i] == x && s[j] == x
    ensures 1 <= Occurrences(s[..i + 1], x) < Occurrences(s[..j + 1], x)
  {
    assert s[..i + 1][..i] == s[..i];
    assert s[..j + 1][..j] == s[..j];
    assert s[..j][..i + 1] == s[..i + 1];
    OccurrencesPrefix(s[..j], i + 1, x);
  }
}
