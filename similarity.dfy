/** The weighted comparison of two objects' features used by the image feature database
    (`_compute_similarity` and its histogram-intersection helpers). An object's features are
    a dictionary of feature groups (`color`, `texture_tamura`, ...), each group a dictionary
    of named numeric arrays. The Tamura, Gabor, Hu and HOG comparisons are cosine and norm
    computations in floating point: they are a parameter here. */
module Similarity {

  /** One feature group: array name to values (`hist_rgb`, `lbp_hist`, ...). */
  type Group = map<string, seq<real>>

  /** The features of one object: group name to group. */
  type FeatureSet = map<string, Group>

  /** The comparisons this model treats as opaque, by group name. */
  type Compare = (string, Group, Group) -> real

  /** `group.get(key, [])`. */
  function Array(g: Group, key: string): seq<real>
  {
    if key in g then g[key] else []
  }

  function Min(a: real, b: real): real
  {
    if a <= b then a else b
  }

  /** The sum of the first `n` entries. */
  function Sum(h: seq<real>, n: nat): real
    requires n <= |h|
  {
    if n == 0 then 0.0 else Sum(h, n - 1) + h[n - 1]
  }

  /** The sum of the first `n` element-wise minima. */
  function MinSum(h1: seq<real>, h2: seq<real>, n: nat): real
    requires n <= |h1| && n <= |h2|
  {
    if n == 0 then 0.0 else MinSum(h1, h2, n - 1) + Min(h1[n - 1], h2[n - 1])
  }

  /** Histogram intersection, `np.minimum(hist1, hist2).sum()`, and 0.0 when either
      histogram is empty. */
  function Intersection(h1: seq<real>, h2: seq<real>): (r: real)
    ensures (h1 == [] || h2 == []) ==> r == 0.0
  {
    if |h1| == 0 || |h2| == 0 then 0.0
    else MinSum(h1, h2, if |h1| <= |h2| then |h1| else |h2|)
  }

  predicate NonNegative(h: seq<real>)
  {
    forall i :: 0 <= i < |h| ==> h[i] >= 0.0
  }

  lemma {:induction false} MinSumSymmetric(h1: seq<real>, h2: seq<real>, n: nat)
    requires n <= |h1| && n <= |h2|
    ensures MinSum(h1, h2, n) == MinSum(h2, h1, n)
  {
    if n > 0 {
      MinSumSymmetric(h1, h2, n - 1);
    }
  }

  lemma {:induction false} MinSumBounds(h1: seq<real>, h2: seq<real>, n: nat)
    requires n <= |h1| && n <= |h2| && NonNegative(h1) && NonNegative(h2)
    ensures 0.0 <= MinSum(h1, h2, n) <= Sum(h1, n)
    ensures MinSum(h1, h2, n) <= Sum(h2, n)
  {
    if n > 0 {
      MinSumBounds(h1, h2, n - 1);
    }
  }

  lemma {:induction false} MinSumSelf(h: seq<real>, n: nat)
    requires n <= |h|
    ensures MinSum(h, h, n) == Sum(h, n)
  {
    if n > 0 {
      MinSumSelf(h, n - 1);
    }
  }

  /** The intersection does not depend on the order of its arguments. */
  lemma IntersectionSymmetric(h1: seq<real>, h2: seq<real>)
    ensures Intersection(h1, h2) == Intersection(h2, h1)
  {
    if |h1| > 0 && |h2| > 0 {
      MinSumSymmetric(h1, h2, if |h1| <= |h2| then |h1| else |h2|);
    }
  }

  /** Of two histograms with non-negative bins and the same length, the intersection is at
      least 0 and at most either histogram's mass; a histogram meets itself in its whole
      mass. So two normalised histograms score in [0, 1], and 1 against themselves. */
  lemma IntersectionBounds(h1: seq<real>, h2: seq<real>)
    requires NonNegative(h1) && NonNegative(h2) && |h1| == |h2|
    ensures 0.0 <= Intersection(h1, h2) <= Sum(h1, |h1|)
    ensures Intersection(h1, h2) <= Sum(h2, |h2|)
    ensures Intersection(h1, h1) == Sum(h1, |h1|)
  {
    MinSumBounds(h1, h2, |h1|);
    MinSumSelf(h1, |h1|);
  }

  /** The array each histogram-intersection group is compared on. */
  const HistogramKey: map<string, string> :=
    map["color" := "hist_rgb", "texture_lbp" := "lbp_hist", "shape_contour" := "orientation_hist"]

  /** The per-group comparison: histogram intersection for colour, LBP and contour
      orientation, the opaque comparison for the others. */
  function GroupSimilarity(kind: string, g1: Group, g2: Group, other: Compare): real
  {
    if kind in HistogramKey then Intersection(Array(g1, HistogramKey[kind]), Array(g2, HistogramKey[kind]))
    else other(kind, g1, g2)
  }

  /** The groups `_compute_similarity` looks at, in its order, each with the weight used when
      the caller's weights do not name it. */
  const Kinds: seq<(string, real)> := [
    ("color", 0.3), ("texture_tamura", 0.2), ("texture_gabor", 0.2), ("shape_hu", 0.15),
    ("shape_hog", 0.15), ("texture_lbp", 0.10), ("shape_contour", 0.10)]

  /** `weights.get(kind, fallback)`. */
  function WeightOf(weights: map<string, real>, kind: string, fallback: real): real
  {
    if kind in weights then weights[kind] else fallback
  }

  /** `sim * weight`. */
  function Scaled(sim: real, weight: real): real
  {
    sim * weight
  }

  /** `(total_similarity, total_weight)` after the given groups, each counted only when both
      objects have it. */
  function Accumulate(f1: FeatureSet, f2: FeatureSet, weights: map<string, real>, other: Compare,
                      kinds: seq<(string, real)>): (real, real)
  {
    if kinds == [] then (0.0, 0.0)
    else
      var prev := Accumulate(f1, f2, weights, other, kinds[..|kinds| - 1]);
      var kind := kinds[|kinds| - 1].0;
      if kind in f1 && kind in f2 then
        var w := WeightOf(weights, kind, kinds[|kinds| - 1].1);
        (prev.0 + Scaled(GroupSimilarity(kind, f1[kind], f2[kind], other), w), prev.1 + w)
      else prev
  }

  /** `_compute_similarity`: the weighted mean of the shared groups' similarities, or 0.0
      when the shared weight is not positive. */
  function ComputeSimilarity(f1: FeatureSet, f2: FeatureSet, weights: map<string, real>, other: Compare): real
  {
    var acc := Accumulate(f1, f2, weights, other, Kinds);
    if acc.1 > 0.0 then acc.0 / acc.1 else 0.0
  }

  // ---------------------------------------------------------------------------------------
  // Properties

  ghost predicate Symmetric(other: Compare)
  {
    forall kind, g1, g2 :: other(kind, g1, g2) == other(kind, g2, g1)
  }

  lemma GroupSimilaritySymmetric(kind: string, g1: Group, g2: Group, other: Compare)
    requires Symmetric(other)
    ensures GroupSimilarity(kind, g1, g2, other) == GroupSimilarity(kind, g2, g1, other)
  {
    if kind in HistogramKey {
      IntersectionSymmetric(Array(g1, HistogramKey[kind]), Array(g2, HistogramKey[kind]));
    } else {
      assert other(kind, g1, g2) == other(kind, g2, g1);
    }
  }

  lemma {:induction false} AccumulateSymmetric(f1: FeatureSet, f2: FeatureSet, weights: map<string, real>,
                                               other: Compare, kinds: seq<(string, real)>)
    requires Symmetric(other)
    ensures Accumulate(f1, f2, weights, other, kinds) == Accumulate(f2, f1, weights, other, kinds)
  {
    if kinds != [] {
      AccumulateSymmetric(f1, f2, weights, other, kinds[..|kinds| - 1]);
      var kind := kinds[|kinds| - 1].0;
      if kind in f1 && kind in f2 {
        GroupSimilaritySymmetric(kind, f1[kind], f2[kind], other);
      }
    }
  }

  /** Comparing `a` with `b` scores the same as comparing `b` with `a`, as long as the
      opaque comparisons are symmetric (cosine similarity and the Hu distance are). */
  lemma ComputeSimilaritySymmetric(f1: FeatureSet, f2: FeatureSet, weights: map<string, real>, other: Compare)
    requires Symmetric(other)
    ensures ComputeSimilarity(f1, f2, weights, other) == ComputeSimilarity(f2, f1, weights, other)
  {
    AccumulateSymmetric(f1, f2, weights, other, Kinds);
  }

  /** The shared groups' similarities lie in [lo, hi]. */
  predicate SharedWithin(f1: FeatureSet, f2: FeatureSet, other: Compare, kinds: seq<(string, real)>, lo: real, hi: real)
  {
    forall i :: 0 <= i < |kinds| && kinds[i].0 in f1 && kinds[i].0 in f2 ==>
      lo <= GroupSimilarity(kinds[i].0, f1[kinds[i].0], f2[kinds[i].0], other) <= hi
  }

  /** Every weight that can be used is non-negative. */
  predicate WeightsNonNegative(weights: map<string, real>, kinds: seq<(string, real)>)
  {
    (forall k :: k in weights ==> weights[k] >= 0.0) && (forall i :: 0 <= i < |kinds| ==> kinds[i].1 >= 0.0)
  }

  lemma ScaledBetween(s: real, w: real)
    requires 0.0 <= s <= 1.0 && w >= 0.0
    ensures 0.0 <= Scaled(s, w) <= w
  {
    assert s * w <= 1.0 * w;
  }

  lemma {:induction false} AccumulateBounded(f1: FeatureSet, f2: FeatureSet, weights: map<string, real>,
                                             other: Compare, kinds: seq<(string, real)>)
    requires SharedWithin(f1, f2, other, kinds, 0.0, 1.0) && WeightsNonNegative(weights, kinds)
    ensures var acc := Accumulate(f1, f2, weights, other, kinds); 0.0 <= acc.0 <= acc.1
  {
    if kinds != [] {
      var front := kinds[..|kinds| - 1];
      assert SharedWithin(f1, f2, other, front, 0.0, 1.0) && WeightsNonNegative(weights, front) by {
        assert forall i :: 0 <= i < |front| ==> front[i] == kinds[i];
      }
      AccumulateBounded(f1, f2, weights, other, front);
      var last := |kinds| - 1;
      var kind := kinds[last].0;
      if kind in f1 && kind in f2 {
        var w := WeightOf(weights, kind, kinds[last].1);
        assert w >= 0.0;
        ScaledBetween(GroupSimilarity(kind, f1[kind], f2[kind], other), w);
      }
    }
  }

  lemma Ratio(t: real, w: real)
    requires 0.0 <= t <= w && w > 0.0
    ensures 0.0 <= t / w <= 1.0
    ensures t == w ==> t / w == 1.0
  {
    assert t / w * w == t;
  }

  /** With non-negative weights and every shared group scoring in [0, 1], the overall score
      is a weighted mean and lies in [0, 1] as well. */
  lemma ComputeSimilarityBounded(f1: FeatureSet, f2: FeatureSet, weights: map<string, real>, other: Compare)
    requires SharedWithin(f1, f2, other, Kinds, 0.0, 1.0) && WeightsNonNegative(weights, Kinds)
    ensures 0.0 <= ComputeSimilarity(f1, f2, weights, other) <= 1.0
  {
    AccumulateBounded(f1, f2, weights, other, Kinds);
    var acc := Accumulate(f1, f2, weights, other, Kinds);
    if acc.1 > 0.0 {
      Ratio(acc.0, acc.1);
    }
  }

  lemma {:induction false} AccumulateOnes(f1: FeatureSet, f2: FeatureSet, weights: map<string, real>,
                                          other: Compare, kinds: seq<(string, real)>)
    requires SharedWithin(f1, f2, other, kinds, 1.0, 1.0)
    ensures var acc := Accumulate(f1, f2, weights, other, kinds); acc.0 == acc.1
  {
    if kinds != [] {
      var front := kinds[..|kinds| - 1];
      assert SharedWithin(f1, f2, other, front, 1.0, 1.0) by {
        assert forall i :: 0 <= i < |front| ==> front[i] == kinds[i];
      }
      AccumulateOnes(f1, f2, weights, other, front);
    }
  }

  /** When every shared group scores 1 (an object against itself with normalised histograms
      and an opaque comparison giving 1 on equal groups), the overall score is 1 whenever
      some positive weight is shared. */
  lemma ComputeSimilarityOfAlike(f1: FeatureSet, f2: FeatureSet, weights: map<string, real>, other: Compare)
    requires SharedWithin(f1, f2, other, Kinds, 1.0, 1.0)
    ensures Accumulate(f1, f2, weights, other, Kinds).1 > 0.0 ==> ComputeSimilarity(f1, f2, weights, other) == 1.0
  {
    AccumulateOnes(f1, f2, weights, other, Kinds);
    var acc := Accumulate(f1, f2, weights, other, Kinds);
    if acc.1 > 0.0 {
      Ratio(acc.0, acc.1);
    }
  }

  lemma {:induction false} AccumulateNothingShared(f1: FeatureSet, f2: FeatureSet, weights: map<string, real>,
                                                   other: Compare, kinds: seq<(string, real)>)
    requires forall i :: 0 <= i < |kinds| ==> !(kinds[i].0 in f1 && kinds[i].0 in f2)
    ensures Accumulate(f1, f2, weights, other, kinds) == (0.0, 0.0)
  {
    if kinds != [] {
      var front := kinds[..|kinds| - 1];
      assert forall i :: 0 <= i < |front| ==> front[i] == kinds[i];
      AccumulateNothingShared(f1, f2, weights, other, front);
    }
  }

  /** Objects without a feature group in common score 0.0. */
  lemma NothingSharedScoresZero(f1: FeatureSet, f2: FeatureSet, weights: map<string, real>, other: Compare)
    requires forall i :: 0 <= i < |Kinds| ==> !(Kinds[i].0 in f1 && Kinds[i].0 in f2)
    ensures ComputeSimilarity(f1, f2, weights, other) == 0.0
  {
    AccumulateNothingShared(f1, f2, weights, other, Kinds);
  }
}
