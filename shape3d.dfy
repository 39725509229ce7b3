/** The global shape descriptors of a mesh (`Shape3DFeatureExtractor`): the enclosed volume,
    the compactness, the bounding box and the seven-entry feature vector, together with the
    z-score normalisation and the distance the 3D search ranks by. Coordinates and features
    are exact reals; `math.sqrt`/`np.sqrt` is a parameter. */
module Shape3D {
  import opened Wrappers
  import opened Geometry

  // ---------------------------------------------------------------------------------------
  // compute_volume

  /** numpy's `vertices[i]`: a negative index counts from the end, anything else out of range
      raises `IndexError` (`None`). */
  function VertexAt(vs: seq<Vec3>, i: int): Option<Vec3>
  {
    if 0 <= i < |vs| then Some(vs[i])
    else if -|vs| <= i < 0 then Some(vs[|vs| + i])
    else None
  }

  /** The contribution of one face: the triple product of its first three corners; a face
      with fewer than three indices is skipped. */
  function FaceTerm(vs: seq<Vec3>, face: seq<int>): Option<real>
  {
    if |face| < 3 then Some(0.0)
    else
      match (VertexAt(vs, face[0]), VertexAt(vs, face[1]), VertexAt(vs, face[2]))
      case (Some(a), Some(b), Some(c)) => Some(Triple(a, b, c))
      case _ => None
  }

  /** The running sum `volume += np.dot(v1, np.cross(v2, v3))` over the faces, in order; the
      first face with an index out of range raises. */
  function SignedSum(vs: seq<Vec3>, faces: seq<seq<int>>): Option<real>
  {
    if faces == [] then Some(0.0)
    else
      match SignedSum(vs, faces[..|faces| - 1])
      case None => None
      case Some(s) =>
        match FaceTerm(vs, faces[|faces| - 1])
        case None => None
        case Some(t) => Some(s + t)
  }

  function Abs(x: real): real
  {
    if x < 0.0 then -x else x
  }

  /** `abs(volume) / 6.0`: never negative. */
  function Volume(vs: seq<Vec3>, faces: seq<seq<int>>): (r: Option<real>)
    ensures r.Some? ==> r.value >= 0.0
    ensures r.Some? <==> SignedSum(vs, faces).Some?
  {
    match SignedSum(vs, faces)
    case None => None
    case Some(s) => Some(Abs(s) / 6.0)
  }

  /** An index numpy accepts for an array of `n` rows. */
  predicate IndexOk(n: nat, i: int)
  {
    -(n as int) <= i < n
  }

  /** Every face of three or more indices names existing rows with its first three. */
  predicate CornersOk(n: nat, faces: seq<seq<int>>)
  {
    forall k :: 0 <= k < |faces| && |faces[k]| >= 3 ==>
      IndexOk(n, faces[k][0]) && IndexOk(n, faces[k][1]) && IndexOk(n, faces[k][2])
  }

  /** The volume is defined exactly when no face names a row numpy rejects. */
  lemma {:induction false} VolumeDefined(vs: seq<Vec3>, faces: seq<seq<int>>)
    ensures Volume(vs, faces).Some? <==> CornersOk(|vs|, faces)
  {
    if faces != [] {
      var front := faces[..|faces| - 1];
      VolumeDefined(vs, front);
      assert forall k :: 0 <= k < |front| ==> front[k] == faces[k];
      var f := faces[|faces| - 1];
      if !CornersOk(|vs|, front) {
        var k :| 0 <= k < |front| && |front[k]| >= 3 &&
          !(IndexOk(|vs|, front[k][0]) && IndexOk(|vs|, front[k][1]) && IndexOk(|vs|, front[k][2]));
        assert faces[k] == front[k];
      }
    }
  }

  /** The sum over two runs of faces is the sum of the two sums. */
  lemma {:induction false} SignedSumAppend(vs: seq<Vec3>, a: seq<seq<int>>, b: seq<seq<int>>)
    requires SignedSum(vs, a).Some? && SignedSum(vs, b).Some?
    ensures SignedSum(vs, a + b) == Some(SignedSum(vs, a).value + SignedSum(vs, b).value)
  {
    if b == [] {
      assert a + b == a;
    } else {
      var front := b[..|b| - 1];
      assert (a + b)[..|a + b| - 1] == a + front;
      assert (a + b)[|a + b| - 1] == b[|b| - 1];
      SignedSumAppend(vs, a, front);
    }
  }

  /** A face with fewer than three indices does not change the volume wherever it appears. */
  lemma ShortFaceIgnored(vs: seq<Vec3>, a: seq<seq<int>>, f: seq<int>, b: seq<seq<int>>)
    requires |f| < 3
    ensures Volume(vs, a + [f] + b) == Volume(vs, a + b)
  {
    if SignedSum(vs, a).Some? && SignedSum(vs, b).Some? {
      assert SignedSum(vs, [f]) == Some(0.0) by {
        assert [f][..0] == [];
      }
      SignedSumAppend(vs, a, [f]);
      SignedSumAppend(vs, a + [f], b);
      SignedSumAppend(vs, a, b);
    } else {
      VolumeDefined(vs, a + [f] + b);
      VolumeDefined(vs, a + b);
      VolumeDefined(vs, a);
      VolumeDefined(vs, b);
      assert forall k :: 0 <= k < |a| ==> (a + [f] + b)[k] == a[k] && (a + b)[k] == a[k];
      assert forall k :: 0 <= k < |b| ==> (a + [f] + b)[|a| + 1 + k] == b[k] && (a + b)[|a| + k] == b[k];
      if !CornersOk(|vs|, a) {
        var k :| 0 <= k < |a| && |a[k]| >= 3 && !(IndexOk(|vs|, a[k][0]) && IndexOk(|vs|, a[k][1]) && IndexOk(|vs|, a[k][2]));
        assert (a + [f] + b)[k] == a[k] && (a + b)[k] == a[k];
      } else {
        var k :| 0 <= k < |b| && |b[k]| >= 3 && !(IndexOk(|vs|, b[k][0]) && IndexOk(|vs|, b[k][1]) && IndexOk(|vs|, b[k][2]));
        assert (a + [f] + b)[|a| + 1 + k] == b[k] && (a + b)[|a| + k] == b[k];
      }
    }
  }

  /** A face listed the other way round: its second and third corners swapped. */
  function Flip(face: seq<int>): (r: seq<int>)
    ensures |r| == |face|
  {
    if |face| < 3 then face else [face[0], face[2], face[1]] + face[3..]
  }

  function FlipAll(faces: seq<seq<int>>): (r: seq<seq<int>>)
    ensures |r| == |faces|
  {
    seq(|faces|, k requires 0 <= k < |faces| => Flip(faces[k]))
  }

  /** Reversing the orientation of every face negates the signed sum ... */
  lemma {:induction false} FlipNegates(vs: seq<Vec3>, faces: seq<seq<int>>)
    ensures SignedSum(vs, FlipAll(faces)).Some? == SignedSum(vs, faces).Some?
    ensures SignedSum(vs, faces).Some? ==> SignedSum(vs, FlipAll(faces)).value == -SignedSum(vs, faces).value
  {
    if faces != [] {
      var front := faces[..|faces| - 1];
      var f := faces[|faces| - 1];
      FlipNegates(vs, front);
      assert FlipAll(faces)[..|faces| - 1] == FlipAll(front);
      assert FlipAll(faces)[|faces| - 1] == Flip(f);
      if |f| >= 3 {
        var g := Flip(f);
        assert g[0] == f[0] && g[1] == f[2] && g[2] == f[1];
        match (VertexAt(vs, f[0]), VertexAt(vs, f[1]), VertexAt(vs, f[2]))
        case (Some(a), Some(b), Some(c)) =>
          TripleAntisymmetric(a, b, c);
        case _ =>
      }
    }
  }

  /** ... so the volume, which takes the absolute value, does not depend on orientation. */
  lemma FlipKeepsVolume(vs: seq<Vec3>, faces: seq<seq<int>>)
    ensures Volume(vs, FlipAll(faces)) == Volume(vs, faces)
  {
    FlipNegates(vs, faces);
  }

  /** `compute_volume`: the loop over the faces. */
  method ComputeVolume(vs: seq<Vec3>, faces: seq<seq<int>>) returns (r: Option<real>)
    ensures r == Volume(vs, faces)
  {
    var volume := 0.0;
    var k := 0;
    while k < |faces|
      invariant 0 <= k <= |faces|
      invariant SignedSum(vs, faces[..k]) == Some(volume)
    {
      assert faces[..k + 1][..k] == faces[..k];
      var face := faces[k];
      if |face| < 3 {
        k := k + 1;
        continue;
      }
      var v1 := VertexAt(vs, face[0]);
      var v2 := VertexAt(vs, face[1]);
      var v3 := VertexAt(vs, face[2]);
      if v1.None? || v2.None? || v3.None? {
        FirstBadFace(vs, faces, k + 1);
        return None;
      }
      volume := volume + Triple(v1.value, v2.value, v3.value);
      k := k + 1;
    }
    assert faces[..k] == faces;
    return Some(Abs(volume) / 6.0);
  }

  /** Once a face raises, the whole computation does. */
  lemma {:induction false} FirstBadFace(vs: seq<Vec3>, faces: seq<seq<int>>, n: nat)
    requires n <= |faces| && SignedSum(vs, faces[..n]).None?
    ensures Volume(vs, faces).None?
  {
    if n < |faces| {
      var front := faces[..|faces| - 1];
      assert front[..n] == faces[..n];
      FirstBadFace(vs, front, n);
    } else {
      assert faces[..n] == faces;
    }
  }

  // ---------------------------------------------------------------------------------------
  // compute_compactness

  /** `math.pi` as the double it is. */
  const Pi: real := 3.141592653589793

  function Sq(x: real): real
  {
    x * x
  }

  function Cube(x: real): real
  {
    x * Sq(x)
  }

  lemma MulPos(a: real, b: real)
    requires a > 0.0 && b > 0.0
    ensures a * b > 0.0
  {
  }

  lemma MulNonPos(a: real, b: real)
    requires a > 0.0 && b <= 0.0
    ensures a * b <= 0.0
  {
  }

  lemma SqPos(x: real)
    requires x > 0.0
    ensures Sq(x) > 0.0
  {
    calc {
      Sq(x);
    ==
      x * x;
    >
      0.0;
    }
  }

  lemma CubeSign(a: real)
    ensures a >= 0.0 ==> Cube(a) >= 0.0
    ensures a > 0.0 ==> Cube(a) > 0.0
  {
    if a > 0.0 {
      SqPos(a);
      MulPos(a, Sq(a));
    } else if a == 0.0 {
      assert Cube(a) == 0.0;
    }
  }

  lemma Quotient(n: real, d: real)
    requires d > 0.0
    ensures (n / d) * d == n
    ensures n >= 0.0 ==> n / d >= 0.0
    ensures n == d ==> n / d == 1.0
  {
  }

  /** The denominator `36 * pi * V^2`. */
  function Spread(volume: real): real
  {
    36.0 * Pi * Sq(volume)
  }

  lemma SpreadPositive(volume: real)
    requires volume > 0.0
    ensures Spread(volume) > 0.0
  {
    SqPos(volume);
    MulPos(Pi, Sq(volume));
  }

  /** `A^3 / (36 * pi * V^2)`, and 0.0 for a mesh without positive volume. */
  function Compactness(volume: real, area: real): (c: real)
    ensures volume <= 0.0 ==> c == 0.0
    ensures volume > 0.0 && area >= 0.0 ==> c >= 0.0
    ensures volume > 0.0 ==> c * Spread(volume) == Cube(area)
  {
    if volume > 0.0 then
      SpreadPositive(volume);
      CubeSign(area);
      Quotient(Cube(area), Spread(volume));
      Cube(area) / Spread(volume)
    else 0.0
  }

  /** The normalisation the source's comment promises: a sphere scores exactly 1. */
  lemma SphereIsOne(radius: real)
    requires radius > 0.0
    ensures Compactness(4.0 / 3.0 * Pi * Cube(radius), 4.0 * Pi * Sq(radius)) == 1.0
  {
    var v := 4.0 / 3.0 * Pi * Cube(radius);
    var a := 4.0 * Pi * Sq(radius);
    CubeSign(radius);
    MulPos(4.0 / 3.0 * Pi, Cube(radius));
    SpreadPositive(v);
    assert Cube(a) == Spread(v);
    Quotient(Cube(a), Spread(v));
  }

  /** Compactness does not depend on the size of the shape: scaling by `k` multiplies the
      volume by `k^3` and the area by `k^2`. */
  lemma CompactnessScaleFree(volume: real, area: real, k: real)
    requires k > 0.0
    ensures Compactness(Cube(k) * volume, Sq(k) * area) == Compactness(volume, area)
  {
    CubeSign(k);
    MulPos(Cube(k), Cube(k));
    CubeOfScaled(Sq(k), area);
    CubeOfSq(k);
    SpreadOfScaled(Cube(k), volume);
    if volume > 0.0 {
      MulPos(Cube(k), volume);
      ScaledCompactness(Cube(k) * Cube(k), volume, area);
    } else {
      MulNonPos(Cube(k), volume);
    }
  }

  lemma CubeOfScaled(s: real, x: real)
    ensures Cube(s * x) == Cube(s) * Cube(x)
  {
  }

  lemma CubeOfSq(k: real)
    ensures Cube(Sq(k)) == Cube(k) * Cube(k)
  {
  }

  lemma SpreadOfScaled(s: real, volume: real)
    ensures Spread(s * volume) == (s * s) * Spread(volume)
  {
  }

  /** Scaling the cubed area and the spread by the same positive factor leaves the ratio. */
  lemma ScaledCompactness(s: real, volume: real, area: real)
    requires s > 0.0 && volume > 0.0
    ensures s * Spread(volume) > 0.0
    ensures (s * Cube(area)) / (s * Spread(volume)) == Compactness(volume, area)
  {
    SpreadPositive(volume);
    MulPos(s, Spread(volume));
    ScaleQuotient(s, Cube(area), Spread(volume));
  }

  lemma ScaleQuotient(s: real, n: real, d: real)
    requires s > 0.0 && d > 0.0
    ensures (s * n) / (s * d) == n / d
  {
  }

  // ---------------------------------------------------------------------------------------
  // compute_bounding_box

  /** Below this an extent counts as zero. */
  const Epsilon: real := 0.000001

  datatype BoundingBox = BoundingBox(width: real, height: real, depth: real, aspectXY: real, aspectXZ: real)

  /** The smallest coordinate (`np.min(vertices, axis=0)`). */
  function Lowest(vs: seq<Vec3>, coord: Vec3 -> real): (m: real)
    requires vs != []
    ensures forall i :: 0 <= i < |vs| ==> m <= coord(vs[i])
  {
    if |vs| == 1 then coord(vs[0])
    else
      var rest := Lowest(vs[1..], coord);
      assert forall i :: 1 <= i < |vs| ==> vs[i] == vs[1..][i - 1];
      if coord(vs[0]) <= rest then coord(vs[0]) else rest
  }

  /** The largest coordinate (`np.max(vertices, axis=0)`). */
  function Highest(vs: seq<Vec3>, coord: Vec3 -> real): (m: real)
    requires vs != []
    ensures forall i :: 0 <= i < |vs| ==> coord(vs[i]) <= m
  {
    if |vs| == 1 then coord(vs[0])
    else
      var rest := Highest(vs[1..], coord);
      assert forall i :: 1 <= i < |vs| ==> vs[i] == vs[1..][i - 1];
      if coord(vs[0]) >= rest then coord(vs[0]) else rest
  }

  /** Both extremes are attained by some vertex. */
  lemma {:induction false} ExtremesAttained(vs: seq<Vec3>, coord: Vec3 -> real)
    requires vs != []
    ensures exists i :: 0 <= i < |vs| && coord(vs[i]) == Lowest(vs, coord)
    ensures exists i :: 0 <= i < |vs| && coord(vs[i]) == Highest(vs, coord)
  {
    if |vs| == 1 {
      assert coord(vs[0]) == Lowest(vs, coord) == Highest(vs, coord);
    } else {
      ExtremesAttained(vs[1..], coord);
      var i :| 0 <= i < |vs[1..]| && coord(vs[1..][i]) == Lowest(vs[1..], coord);
      var j :| 0 <= j < |vs[1..]| && coord(vs[1..][j]) == Highest(vs[1..], coord);
      assert vs[1..][i] == vs[i + 1] && vs[1..][j] == vs[j + 1];
      if coord(vs[0]) <= Lowest(vs[1..], coord) {
        assert coord(vs[0]) == Lowest(vs, coord);
      } else {
        assert coord(vs[i + 1]) == Lowest(vs, coord);
      }
      if coord(vs[0]) >= Highest(vs[1..], coord) {
        assert coord(vs[0]) == Highest(vs, coord);
      } else {
        assert coord(vs[j + 1]) == Highest(vs, coord);
      }
    }
  }

  function X(v: Vec3): real { v.x }
  function Y(v: Vec3): real { v.y }
  function Z(v: Vec3): real { v.z }

  /** `width / extent if extent > 1e-6 else 1.0`. */
  function Aspect(width: real, extent: real): (r: real)
    ensures extent <= Epsilon ==> r == 1.0
    ensures extent > Epsilon ==> r * extent == width
  {
    if extent > Epsilon then width / extent else 1.0
  }

  /** The extent along each axis, and the two aspect ratios guarded against a flat box;
      `None` for an empty mesh, where `np.min` raises. */
  function Box(vs: seq<Vec3>): (r: Option<BoundingBox>)
    ensures r.None? <==> vs == []
    ensures r.Some? ==> r.value.width >= 0.0 && r.value.height >= 0.0 && r.value.depth >= 0.0
    ensures r.Some? && r.value.height <= Epsilon ==> r.value.aspectXY == 1.0
    ensures r.Some? && r.value.depth <= Epsilon ==> r.value.aspectXZ == 1.0
  {
    if vs == [] then None
    else
      var width := Highest(vs, X) - Lowest(vs, X);
      var height := Highest(vs, Y) - Lowest(vs, Y);
      var depth := Highest(vs, Z) - Lowest(vs, Z);
      Some(BoundingBox(width, height, depth, Aspect(width, height), Aspect(width, depth)))
  }

  function Translate(vs: seq<Vec3>, d: Vec3): (r: seq<Vec3>)
    ensures |r| == |vs|
  {
    seq(|vs|, i requires 0 <= i < |vs| => Vec3(vs[i].x + d.x, vs[i].y + d.y, vs[i].z + d.z))
  }

  /** Moving every vertex by `shift` along an axis moves both extremes by `shift`. */
  lemma {:induction false} ExtremesShift(vs: seq<Vec3>, ws: seq<Vec3>, coord: Vec3 -> real, shift: real)
    requires vs != [] && |ws| == |vs|
    requires forall i :: 0 <= i < |vs| ==> coord(ws[i]) == coord(vs[i]) + shift
    ensures Lowest(ws, coord) == Lowest(vs, coord) + shift
    ensures Highest(ws, coord) == Highest(vs, coord) + shift
  {
    if |vs| > 1 {
      assert forall i :: 0 <= i < |vs| - 1 ==> vs[1..][i] == vs[i + 1] && ws[1..][i] == ws[i + 1];
      ExtremesShift(vs[1..], ws[1..], coord, shift);
    }
  }

  /** The bounding box does not depend on where the mesh sits. */
  lemma BoxTranslationFree(vs: seq<Vec3>, d: Vec3)
    ensures Box(Translate(vs, d)) == Box(vs)
  {
    if vs != [] {
      var ws := Translate(vs, d);
      TranslateCoords(vs, d);
      ExtremesShift(vs, ws, X, d.x);
      ExtremesShift(vs, ws, Y, d.y);
      ExtremesShift(vs, ws, Z, d.z);
      ShiftedBox(vs, ws);
    }
  }

  lemma TranslateCoords(vs: seq<Vec3>, d: Vec3)
    ensures forall i :: 0 <= i < |vs| ==> X(Translate(vs, d)[i]) == X(vs[i]) + d.x
    ensures forall i :: 0 <= i < |vs| ==> Y(Translate(vs, d)[i]) == Y(vs[i]) + d.y
    ensures forall i :: 0 <= i < |vs| ==> Z(Translate(vs, d)[i]) == Z(vs[i]) + d.z
  {
  }

  /** Two meshes whose extremes differ by the same amount per axis have the same box. */
  lemma ShiftedBox(vs: seq<Vec3>, ws: seq<Vec3>)
    requires vs != [] && ws != []
    requires Highest(ws, X) - Lowest(ws, X) == Highest(vs, X) - Lowest(vs, X)
    requires Highest(ws, Y) - Lowest(ws, Y) == Highest(vs, Y) - Lowest(vs, Y)
    requires Highest(ws, Z) - Lowest(ws, Z) == Highest(vs, Z) - Lowest(vs, Z)
    ensures Box(ws) == Box(vs)
  {
  }

  // ---------------------------------------------------------------------------------------
  // get_feature_vector

  /** The seven global descriptors `extract_features` stores. */
  datatype Features = Features(
    volume: real, surfaceArea: real, compactness: real,
    aspectRatioXY: real, aspectRatioXZ: real,
    momentInertiaX: real, momentInertiaY: real)

  const FeatureCount: nat := 7

  /** The descriptors in their fixed order. */
  function FeatureVector(f: Features): (v: seq<real>)
    ensures |v| == FeatureCount
  {
    [f.volume, f.surfaceArea, f.compactness, f.aspectRatioXY, f.aspectRatioXZ, f.momentInertiaX, f.momentInertiaY]
  }

  function FromVector(v: seq<real>): Features
    requires |v| == FeatureCount
  {
    Features(v[0], v[1], v[2], v[3], v[4], v[5], v[6])
  }

  /** The vector holds every descriptor once, and nothing else. */
  lemma FeatureVectorRoundTrip(f: Features, v: seq<real>)
    requires |v| == FeatureCount
    ensures FromVector(FeatureVector(f)) == f
    ensures FeatureVector(FromVector(v)) == v
  {
    assert FeatureVector(FromVector(v))[6] == v[6];
  }

  // ---------------------------------------------------------------------------------------
  // _normalize_features

  /** Rows of the same width as the query vector. */
  predicate Table(rows: seq<seq<real>>)
  {
    forall i :: 0 <= i < |rows| ==> |rows[i]| == FeatureCount
  }

  function ColumnSum(rows: seq<seq<real>>, j: nat): real
    requires Table(rows) && j < FeatureCount
  {
    if rows == [] then 0.0 else ColumnSum(rows[..|rows| - 1], j) + rows[|rows| - 1][j]
  }

  /** `np.mean(all_vectors, axis=0)[j]`. */
  function Mean(rows: seq<seq<real>>, j: nat): real
    requires Table(rows) && j < FeatureCount && rows != []
  {
    ColumnSum(rows, j) / (|rows| as real)
  }

  function SquaredDeviations(rows: seq<seq<real>>, j: nat, mean: real): (r: real)
    requires Table(rows) && j < FeatureCount
    ensures r >= 0.0
  {
    if rows == [] then 0.0
    else
      var d := rows[|rows| - 1][j] - mean;
      SquaredDeviations(rows[..|rows| - 1], j, mean) + d * d
  }

  /** `np.std(all_vectors, axis=0)[j]`: the population standard deviation. */
  function Std(rows: seq<seq<real>>, j: nat, sqrt: real -> real): real
    requires Table(rows) && j < FeatureCount && rows != []
  {
    sqrt(SquaredDeviations(rows, j, Mean(rows, j)) / (|rows| as real))
  }

  /** `std[std < 1e-6] = 1.0`: the divisor is never below the threshold. */
  function Divisor(std: real): (d: real)
    ensures d >= Epsilon
    ensures std >= Epsilon ==> d == std
    ensures std < Epsilon ==> d == 1.0
  {
    if std < Epsilon then 1.0 else std
  }

  /** The z-score of `v` against the database's rows; `v` unchanged while the database holds
      fewer than two models. */
  function Normalize(rows: seq<seq<real>>, v: seq<real>, sqrt: real -> real): (r: seq<real>)
    requires Table(rows) && |v| == FeatureCount
    ensures |r| == FeatureCount
    ensures |rows| < 2 ==> r == v
    ensures |rows| >= 2 ==> forall j :: 0 <= j < FeatureCount ==>
      r[j] * Divisor(Std(rows, j, sqrt)) == v[j] - Mean(rows, j)
  {
    if |rows| < 2 then v
    else seq(FeatureCount, j requires 0 <= j < FeatureCount => (v[j] - Mean(rows, j)) / Divisor(Std(rows, j, sqrt)))
  }

  /** The database's own mean normalises to the origin. */
  lemma MeanNormalisesToZero(rows: seq<seq<real>>, sqrt: real -> real)
    requires Table(rows) && |rows| >= 2
    ensures var m := seq(FeatureCount, j requires 0 <= j < FeatureCount => Mean(rows, j));
      Normalize(rows, m, sqrt) == seq(FeatureCount, j => 0.0)
  {
    var m := seq(FeatureCount, j requires 0 <= j < FeatureCount => Mean(rows, j));
    var r := Normalize(rows, m, sqrt);
    forall j | 0 <= j < FeatureCount
      ensures r[j] == 0.0
    {
      assert r[j] * Divisor(Std(rows, j, sqrt)) == 0.0;
    }
  }

  // ---------------------------------------------------------------------------------------
  // The distance `search_similar` ranks by

  function SumOfSquares(x: seq<real>): (r: real)
    ensures r >= 0.0
  {
    if x == [] then 0.0 else SumOfSquares(x[..|x| - 1]) + x[|x| - 1] * x[|x| - 1]
  }

  function WeightedSumOfSquares(w: seq<real>, x: seq<real>): real
    requires |w| == |x|
  {
    if x == [] then 0.0
    else WeightedSumOfSquares(w[..|w| - 1], x[..|x| - 1]) + w[|w| - 1] * x[|x| - 1] * x[|x| - 1]
  }

  function Difference(a: seq<real>, b: seq<real>): (r: seq<real>)
    requires |a| == |b|
    ensures |r| == |a|
  {
    seq(|a|, i requires 0 <= i < |a| => a[i] - b[i])
  }

  /** `np.sqrt(np.sum(weights * (q - d) ** 2))` with weights, `np.linalg.norm(q - d)`
      without. */
  function Distance(q: seq<real>, d: seq<real>, weights: Option<seq<real>>, sqrt: real -> real): real
    requires |q| == |d| && (weights.Some? ==> |weights.value| == |q|)
  {
    match weights
    case Some(w) => sqrt(WeightedSumOfSquares(w, Difference(q, d)))
    case None => sqrt(SumOfSquares(Difference(q, d)))
  }

  /** Unit weights are the same as no weights. */
  lemma {:induction false} UnitWeightsSum(w: seq<real>, x: seq<real>)
    requires |w| == |x| && forall i :: 0 <= i < |w| ==> w[i] == 1.0
    ensures WeightedSumOfSquares(w, x) == SumOfSquares(x)
  {
    if x != [] {
      UnitWeightsSum(w[..|w| - 1], x[..|x| - 1]);
    }
  }

  lemma UnitWeights(q: seq<real>, d: seq<real>, w: seq<real>, sqrt: real -> real)
    requires |q| == |d| == |w| && forall i :: 0 <= i < |w| ==> w[i] == 1.0
    ensures Distance(q, d, Some(w), sqrt) == Distance(q, d, None, sqrt)
  {
    UnitWeightsSum(w, Difference(q, d));
  }

  /** A model is at distance `sqrt(0)` from itself, whatever the weights. */
  lemma {:induction false} SelfDistance(q: seq<real>, weights: Option<seq<real>>, sqrt: real -> real)
    requires weights.Some? ==> |weights.value| == |q|
    ensures Distance(q, q, weights, sqrt) == sqrt(0.0)
  {
    var x := Difference(q, q);
    ZeroSums(x, if weights.Some? then weights.value else x);
  }

  lemma {:induction false} ZeroSums(x: seq<real>, w: seq<real>)
    requires |w| == |x| && forall i :: 0 <= i < |x| ==> x[i] == 0.0
    ensures SumOfSquares(x) == 0.0 && WeightedSumOfSquares(w, x) == 0.0
  {
    if x != [] {
      ZeroSums(x[..|x| - 1], w[..|w| - 1]);
    }
  }
}
