/** The selection toggle both pages use: `prev.includes(id) ? prev.filter(x => x !== id)
    : [...prev, id]`. */
module Selection {

  /** `s` without any occurrence of `x`, the rest in order (`filter(y => y !== x)`). */
  function Without<T(==,!new)>(s: seq<T>, x: T): (r: seq<T>)
    ensures x !in r
    ensures forall y :: y != x ==> (y in r <==> y in s)
    ensures x !in s ==> r == s
    ensures |r| <= |s|
  {
    if s == [] then []
    else (if s[0] == x then [] else [s[0]]) + Without(s[1..], x)
  }

  /** Removes `x` when present, appends it otherwise. */
  function Toggle<T(==,!new)>(s: seq<T>, x: T): seq<T>
  {
    if x in s then Without(s, x) else s + [x]
  }

  predicate Distinct<T(==,!new)>(s: seq<T>)
  {
    forall i, j :: 0 <= i < j < |s| ==> s[i] != s[j]
  }

  /** Toggling flips the membership of `x` and leaves every other element's membership alone. */
  lemma ToggleMembership<T(!new)>(s: seq<T>, x: T)
    ensures x in Toggle(s, x) <==> x !in s
    ensures forall y :: y != x ==> (y in Toggle(s, x) <==> y in s)
  {
  }

  /** Toggling the same element twice gives back the same set of selected elements, and the
      very same list when the element was not selected. */
  lemma ToggleTwice<T(!new)>(s: seq<T>, x: T)
    ensures forall y :: y in Toggle(Toggle(s, x), x) <==> y in s
    ensures x !in s ==> Toggle(Toggle(s, x), x) == s
  {
    var t := Toggle(s, x);
    if x !in s {
      assert x in t;
      WithoutAppended(s, x);
    }
  }

  lemma {:induction false} WithoutAppended<T(!new)>(s: seq<T>, x: T)
    requires x !in s
    ensures Without(s + [x], x) == s
  {
    if s == [] {
      assert [] + [x] == [x];
    } else {
      assert (s + [x])[1..] == s[1..] + [x];
      WithoutAppended(s[1..], x);
      assert s == [s[0]] + s[1..];
    }
  }

  lemma {:induction false} WithoutDistinct<T(!new)>(s: seq<T>, x: T)
    requires Distinct(s)
    ensures Distinct(Without(s, x))
  {
    if s != [] {
      WithoutDistinct(s[1..], x);
      var rest := Without(s[1..], x);
      assert s[0] !in s[1..];
      assert s[0] !in rest;
    }
  }

  /** A selection without repeats stays without repeats. */
  lemma ToggleDistinct<T(!new)>(s: seq<T>, x: T)
    requires Distinct(s)
    ensures Distinct(Toggle(s, x))
  {
    if x in s {
      WithoutDistinct(s, x);
    }
  }
}
