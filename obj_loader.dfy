/** The back end's OBJ reader, `load_obj`: the file is read line by line, `v` lines give
    vertices, `f` lines give triangles (a quad becomes two, any other size is dropped),
    and every failure surfaces as one error whose message starts with
    "Error loading .obj file: ". The file is given as its sequence of lines, and Python's
    `float()` on a coordinate token is a parameter (`None` when it raises). */
module ObjLoader {
  import opened Wrappers
  import opened Text
  import opened Geometry
  import ObjViewer

  datatype LoadError =
    | IndexOutOfRange           // a `v` line with fewer than three coordinates
    | BadFloat(token: string)   // a coordinate that `float()` rejects
    | BadInt(token: string)     // a face index that `int()` rejects
    | NoVertices

  const MessagePrefix: string := "Error loading .obj file: "

  /** The text of the exception that `load_obj` wraps. */
  function Detail(e: LoadError): string
  {
    match e
    case IndexOutOfRange => "list index out of range"
    case BadFloat(t) => "could not convert string to float: '" + t + "'"
    case BadInt(t) => "invalid literal for int() with base 10: '" + t + "'"
    case NoVertices => "No vertices found in .obj file"
  }

  function Message(e: LoadError): string
  {
    MessagePrefix + Detail(e)
  }

  /** Vertices, and faces as lists of vertex indices. */
  datatype Mesh = Mesh(vertices: seq<Vec3>, faces: seq<seq<int>>)

  /** `line.strip().split()`. */
  function LineParts(line: string): seq<string>
  {
    Fields(PySpaces, Trim(PySpaces, line))
  }

  /** `float(parts[i])`: the index is checked first, then the conversion. */
  function Coordinate(parts: seq<string>, i: nat, toFloat: string -> Option<real>): Result<real, LoadError>
  {
    if i >= |parts| then Failure(IndexOutOfRange)
    else match toFloat(parts[i])
      case Some(x) => Success(x)
      case None => Failure(BadFloat(parts[i]))
  }

  /** The three coordinates of a `v` line, converted left to right; the first failure wins. */
  function VertexOf(parts: seq<string>, toFloat: string -> Option<real>): (r: Result<Vec3, LoadError>)
    ensures |parts| >= 4 && toFloat(parts[1]).Some? && toFloat(parts[2]).Some? && toFloat(parts[3]).Some?
      ==> r == Success(Vec3(toFloat(parts[1]).value, toFloat(parts[2]).value, toFloat(parts[3]).value))
    ensures |parts| < 4 ==> r.Failure?
    ensures |parts| >= 4 && toFloat(parts[1]).None? ==> r == Failure(BadFloat(parts[1]))
    ensures |parts| >= 4 && toFloat(parts[1]).Some? && toFloat(parts[2]).None? ==> r == Failure(BadFloat(parts[2]))
    ensures |parts| >= 4 && toFloat(parts[1]).Some? && toFloat(parts[2]).Some? && toFloat(parts[3]).None?
      ==> r == Failure(BadFloat(parts[3]))
  {
    match Coordinate(parts, 1, toFloat)
    case Failure(e) => Failure(e)
    case Success(x) =>
      match Coordinate(parts, 2, toFloat)
      case Failure(e) => Failure(e)
      case Success(y) =>
        match Coordinate(parts, 3, toFloat)
        case Failure(e) => Failure(e)
        case Success(z) => Success(Vec3(x, y, z))
  }

  /** `int(head) - 1`: no sign or range check. */
  function ZeroBased(head: string): Result<int, LoadError>
  {
    match PyInt(head)
    case Some(n) => Success(n - 1)
    case None => Failure(BadInt(head))
  }

  /** `int(part.split('/')[0]) - 1`: the vertex field of a face token. */
  function FaceIndex(token: string): Result<int, LoadError>
  {
    ZeroBased(SplitOn(token, '/')[0])
  }

  /** The values of `rs` in order, or the first failure among them. */
  function CollectAll(rs: seq<Result<int, LoadError>>): (r: Result<seq<int>, LoadError>)
    ensures r.Success? ==> |r.value| == |rs|
  {
    if rs == [] then Success([])
    else
      match CollectAll(rs[..|rs| - 1])
      case Failure(e) => Failure(e)
      case Success(init) =>
        match rs[|rs| - 1]
        case Failure(e) => Failure(e)
        case Success(i) => Success(init + [i])
  }

  /** Collecting succeeds exactly when every element does, with their values in order;
      otherwise it reports the first failure. */
  lemma {:induction false} CollectAllSpec(rs: seq<Result<int, LoadError>>)
    ensures CollectAll(rs).Success? <==> forall j :: 0 <= j < |rs| ==> rs[j].Success?
    ensures CollectAll(rs).Success? ==> forall j :: 0 <= j < |rs| ==> CollectAll(rs).value[j] == rs[j].value
    ensures CollectAll(rs).Failure? ==>
      exists j :: 0 <= j < |rs| && rs[j] == Failure(CollectAll(rs).error) && forall i :: 0 <= i < j ==> rs[i].Success?
  {
    if rs != [] {
      var front := rs[..|rs| - 1];
      CollectAllSpec(front);
      assert forall j :: 0 <= j < |front| ==> front[j] == rs[j];
      if CollectAll(front).Failure? {
        var j :| 0 <= j < |front| && front[j] == Failure(CollectAll(front).error)
          && forall i :: 0 <= i < j ==> front[i].Success?;
        assert rs[j] == front[j];
      }
    }
  }

  /** Once an element fails, nothing after it matters. */
  lemma {:induction false} CollectAllStops(rs: seq<Result<int, LoadError>>, n: nat)
    requires n <= |rs| && CollectAll(rs[..n]).Failure?
    ensures CollectAll(rs) == CollectAll(rs[..n])
  {
    if n < |rs| {
      var front := rs[..|rs| - 1];
      assert front[..n] == rs[..n];
      CollectAllStops(front, n);
    } else {
      assert rs[..n] == rs;
    }
  }

  function TokenIndices(tokens: seq<string>): (rs: seq<Result<int, LoadError>>)
    ensures |rs| == |tokens|
    ensures forall i :: 0 <= i < |tokens| ==> rs[i] == FaceIndex(tokens[i])
  {
    seq(|tokens|, i requires 0 <= i < |tokens| => FaceIndex(tokens[i]))
  }

  /** The indices of a face's tokens, in order; the first bad token wins. */
  function FaceIndices(tokens: seq<string>): (r: Result<seq<int>, LoadError>)
    ensures r.Success? ==> |r.value| == |tokens|
  {
    CollectAll(TokenIndices(tokens))
  }

  /** The triangles `load_obj` keeps: a triangle as is, a quad as two triangles sharing the
      diagonal from its first to its third corner, nothing for any other size. */
  function Triangles(ix: seq<int>): (r: seq<seq<int>>)
    ensures |ix| == 3 ==> r == [ix]
    ensures |ix| == 4 ==> r == [[ix[0], ix[1], ix[2]], [ix[0], ix[2], ix[3]]]
    ensures |ix| != 3 && |ix| != 4 ==> r == []
  {
    if |ix| == 3 then [ix]
    else if |ix| == 4 then [[ix[0], ix[1], ix[2]], [ix[0], ix[2], ix[3]]]
    else []
  }

  /** Every kept face has three corners, each one of the line's indices. */
  lemma TrianglesAreTriangles(ix: seq<int>)
    ensures forall t :: t in Triangles(ix) ==> |t| == 3 && forall x :: x in t ==> x in ix
  {
  }

  predicate AllTriangles(faces: seq<seq<int>>)
  {
    forall i :: 0 <= i < |faces| ==> |faces[i]| == 3
  }

  /** One line of the file, given its fields. */
  function LoadParts(m: Mesh, parts: seq<string>, toFloat: string -> Option<real>): (r: Result<Mesh, LoadError>)
    ensures r.Success? ==> |r.value.vertices| <= |m.vertices| + 1
  {
    if |parts| == 0 then Success(m)
    else if parts[0] == "v" then
      match VertexOf(parts, toFloat)
      case Failure(e) => Failure(e)
      case Success(v) => Success(m.(vertices := m.vertices + [v]))
    else if parts[0] == "f" then
      match FaceIndices(parts[1..])
      case Failure(e) => Failure(e)
      case Success(ix) => Success(m.(faces := m.faces + Triangles(ix)))
    else Success(m)
  }

  /** A line keeps the faces triangles. */
  lemma LoadPartsTriangles(m: Mesh, parts: seq<string>, toFloat: string -> Option<real>)
    requires AllTriangles(m.faces)
    ensures LoadParts(m, parts, toFloat).Success? ==> AllTriangles(LoadParts(m, parts, toFloat).value.faces)
  {
    if |parts| > 0 && parts[0] != "v" && parts[0] == "f" && FaceIndices(parts[1..]).Success? {
      var ix := FaceIndices(parts[1..]).value;
      TrianglesAreTriangles(ix);
      var faces := m.faces + Triangles(ix);
      forall i | 0 <= i < |faces|
        ensures |faces[i]| == 3
      {
        if i >= |m.faces| {
          assert faces[i] in Triangles(ix);
        }
      }
    }
  }

  /** Every prefix of the loop keeps the faces triangles. */
  lemma {:induction false} LoadAllTriangles(ps: seq<seq<string>>, toFloat: string -> Option<real>)
    ensures LoadAll(ps, toFloat).Success? ==> AllTriangles(LoadAll(ps, toFloat).value.faces)
  {
    if ps != [] {
      var front := LoadAll(ps[..|ps| - 1], toFloat);
      LoadAllTriangles(ps[..|ps| - 1], toFloat);
      if front.Success? {
        LoadPartsTriangles(front.value, ps[|ps| - 1], toFloat);
      }
    }
  }

  /** The fields of every line of the file. */
  function SplitLines(lines: seq<string>): (ps: seq<seq<string>>)
    ensures |ps| == |lines|
  {
    seq(|lines|, i requires 0 <= i < |lines| => LineParts(lines[i]))
  }

  /** The loop over the lines, given their fields: the first failing line ends it. */
  function LoadAll(ps: seq<seq<string>>, toFloat: string -> Option<real>): (r: Result<Mesh, LoadError>)
    ensures r.Success? ==> |r.value.vertices| <= |ps|
  {
    if ps == [] then Success(Mesh([], []))
    else
      match LoadAll(ps[..|ps| - 1], toFloat)
      case Failure(e) => Failure(e)
      case Success(m) => LoadParts(m, ps[|ps| - 1], toFloat)
  }

  /** `load_obj`: the lines, then the check that some vertex was read; every error becomes
      one message with the fixed prefix. */
  function LoadObj(lines: seq<string>, toFloat: string -> Option<real>): (r: Result<Mesh, string>)
    ensures r.Failure? ==> MessagePrefix <= r.error
    ensures r.Success? ==> r.value.vertices != [] && AllTriangles(r.value.faces)
  {
    LoadAllTriangles(SplitLines(lines), toFloat);
    match LoadAll(SplitLines(lines), toFloat)
    case Failure(e) => Failure(Message(e))
    case Success(m) => if m.vertices == [] then Failure(Message(NoVertices)) else Success(m)
  }

  // ---------------------------------------------------------------------------------------
  // Properties

  /** A failing line stops the loading: nothing after it is read, and its error is the one
      reported. */
  lemma {:induction false} FirstErrorWins(a: seq<seq<string>>, b: seq<seq<string>>, toFloat: string -> Option<real>)
    requires LoadAll(a, toFloat).Failure?
    ensures LoadAll(a + b, toFloat) == LoadAll(a, toFloat)
  {
    if b != [] {
      var front := b[..|b| - 1];
      assert (a + b)[..|a + b| - 1] == a + front;
      FirstErrorWins(a, front, toFloat);
    } else {
      assert a + b == a;
    }
  }

  /** A line's effect does not depend on what came before it: it only appends. */
  lemma LoadPartsAppends(m: Mesh, parts: seq<string>, toFloat: string -> Option<real>)
    ensures var one := LoadParts(Mesh([], []), parts, toFloat);
      LoadParts(m, parts, toFloat) ==
        if one.Failure? then Failure(one.error)
        else Success(Mesh(m.vertices + one.value.vertices, m.faces + one.value.faces))
  {
    assert m.vertices + [] == m.vertices && m.faces + [] == m.faces;
    if |parts| > 0 && parts[0] == "v" && VertexOf(parts, toFloat).Success? {
      assert [] + [VertexOf(parts, toFloat).value] == [VertexOf(parts, toFloat).value];
    }
    if |parts| > 0 && parts[0] == "f" && FaceIndices(parts[1..]).Success? {
      assert [] + Triangles(FaceIndices(parts[1..]).value) == Triangles(FaceIndices(parts[1..]).value);
    }
  }

  lemma DropLast<T>(a: seq<T>, b: seq<T>)
    requires b != []
    ensures (a + b)[..|a + b| - 1] == a + b[..|b| - 1]
    ensures (a + b)[|a + b| - 1] == b[|b| - 1]
  {
  }

  /** The last line of a successful run is loaded onto the mesh of the lines before it. */
  lemma LoadAllLast(ps: seq<seq<string>>, toFloat: string -> Option<real>)
    requires ps != [] && LoadAll(ps, toFloat).Success?
    ensures var front := LoadAll(ps[..|ps| - 1], toFloat);
      front.Success? && LoadAll(ps, toFloat) == LoadParts(front.value, ps[|ps| - 1], toFloat)
  {
  }

  /** Two runs of lines that load on their own load together, in order. */
  lemma {:induction false} LoadAllAppend(a: seq<seq<string>>, b: seq<seq<string>>, toFloat: string -> Option<real>)
    requires LoadAll(a, toFloat).Success? && LoadAll(b, toFloat).Success?
    ensures var ma, mb := LoadAll(a, toFloat).value, LoadAll(b, toFloat).value;
      LoadAll(a + b, toFloat) == Success(Mesh(ma.vertices + mb.vertices, ma.faces + mb.faces))
  {
    var ma := LoadAll(a, toFloat).value;
    if b != [] {
      var front := b[..|b| - 1];
      var last := b[|b| - 1];
      LoadAllLast(b, toFloat);
      var mf := LoadAll(front, toFloat).value;
      LoadAllAppend(a, front, toFloat);
      DropLast(a, b);
      var one := LoadParts(Mesh([], []), last, toFloat);
      LoadPartsAppends(mf, last, toFloat);
      var joined := Mesh(ma.vertices + mf.vertices, ma.faces + mf.faces);
      LoadPartsAppends(joined, last, toFloat);
      if one.Success? {
        assert joined.vertices + one.value.vertices == ma.vertices + (mf.vertices + one.value.vertices);
        assert joined.faces + one.value.faces == ma.faces + (mf.faces + one.value.faces);
      }
    } else {
      assert a + b == a;
      assert ma.vertices + [] == ma.vertices && ma.faces + [] == ma.faces;
    }
  }

  /** Lines without any field (blank lines) are skipped, and so are lines whose first field
      is neither `v` nor `f` (comments, `vn`, `vt`, `g`, `usemtl`, ...). */
  lemma OtherLinesSkipped(m: Mesh, parts: seq<string>, toFloat: string -> Option<real>)
    requires parts == [] || (parts[0] != "v" && parts[0] != "f")
    ensures LoadParts(m, parts, toFloat) == Success(m)
  {
  }

  /** A `v` line with fewer than three coordinates is an error, unlike in the viewer. */
  lemma ShortVertexLineFails(m: Mesh, parts: seq<string>, toFloat: string -> Option<real>)
    requires 1 <= |parts| < 4 && parts[0] == "v"
    ensures LoadParts(m, parts, toFloat).Failure?
  {
  }

  /** A `v` line with a coordinate that does not convert is a `ValueError` naming that token. */
  lemma BadCoordinateFails(m: Mesh, parts: seq<string>, toFloat: string -> Option<real>, k: nat)
    requires |parts| >= 4 && parts[0] == "v" && 1 <= k <= 3 && toFloat(parts[k]).None?
    ensures LoadParts(m, parts, toFloat).Failure? && LoadParts(m, parts, toFloat).error.BadFloat?
  {
    VertexLineLoads(m, parts, toFloat);
  }

  lemma FaceIndexOfHead(token: string, head: string)
    requires SplitOn(token, '/')[0] == head
    ensures FaceIndex(token) == ZeroBased(head)
  {
  }

  lemma ZeroBasedOf(head: string, n: int)
    requires PyInt(head) == Some(n)
    ensures ZeroBased(head) == Success(n - 1)
  {
  }

  /** Face tokens `k`, `k/vt`, `k/vt/vn` and `k//vn` read as `k - 1`: in particular `0`
      reads as -1 and is kept. */
  lemma FaceIndexOfToken(n: nat)
    ensures FaceIndex(NatToString(n)) == Success(n - 1)
  {
    var d := NatToString(n);
    ObjViewer.VertexPartOf(d, []);
    PyIntOfNatToString(n);
    FaceIndexOfHead(d, d);
    ZeroBasedOf(d, n);
  }

  lemma FaceIndexOfSlashedToken(n: nat, rest: string)
    ensures FaceIndex(NatToString(n) + "/" + rest) == Success(n - 1)
  {
    var d := NatToString(n);
    ObjViewer.VertexPartOf(d, rest);
    PyIntOfNatToString(n);
    FaceIndexOfHead(d + "/" + rest, d);
    ZeroBasedOf(d, n);
  }

  lemma NegativeHead(n: nat)
    ensures SplitOn("-" + NatToString(n), '/')[0] == "-" + NatToString(n)
  {
    var d := "-" + NatToString(n);
    assert '/' !in d by {
      assert forall i :: 1 <= i < |d| ==> IsDecimalDigit(d[i]);
    }
    SplitOnNoSep(d, '/');
  }

  /** A negative token `-k` reads as `-k - 1`: there is no sign check. */
  lemma FaceIndexOfNegativeToken(n: nat)
    ensures FaceIndex("-" + NatToString(n)) == Success(-(n as int) - 1)
  {
    var d := "-" + NatToString(n);
    NegativeHead(n);
    PyIntOfNatToString(n);
    FaceIndexOfHead(d, d);
    ZeroBasedOf(d, -(n as int));
  }

  /** A face token that `int()` rejects makes the whole file fail. */
  lemma BadFaceTokenFails(m: Mesh, parts: seq<string>, j: nat, toFloat: string -> Option<real>)
    requires 1 <= j < |parts| && parts[0] == "f" && FaceIndex(parts[j]).Failure?
    ensures LoadParts(m, parts, toFloat).Failure?
  {
    BadTokenFailsIndices(parts, j);
    FaceLineFails(m, parts, toFloat);
  }

  lemma BadTokenFailsIndices(parts: seq<string>, j: nat)
    requires 1 <= j < |parts| && FaceIndex(parts[j]).Failure?
    ensures FaceIndices(parts[1..]).Failure?
  {
    var tokens := parts[1..];
    assert tokens[j - 1] == parts[j];
    CollectAllFails(TokenIndices(tokens), j - 1);
  }

  lemma FaceLineFails(m: Mesh, parts: seq<string>, toFloat: string -> Option<real>)
    requires |parts| > 0 && parts[0] == "f" && FaceIndices(parts[1..]).Failure?
    ensures LoadParts(m, parts, toFloat).Failure?
  {
  }

  /** One failing element makes the whole collection fail. */
  lemma {:induction false} CollectAllFails(rs: seq<Result<int, LoadError>>, j: nat)
    requires j < |rs| && rs[j].Failure?
    ensures CollectAll(rs).Failure?
  {
    if j < |rs| - 1 {
      var front := rs[..|rs| - 1];
      assert front[j] == rs[j];
      CollectAllFails(front, j);
    }
  }

  function Flatten(ts: seq<seq<int>>): seq<int>
  {
    if ts == [] then [] else ts[0] + Flatten(ts[1..])
  }

  /** Where the two readers meet: for a triangle or a quad whose indices all survive the
      viewer's filter, both readers produce the same triangles. */
  lemma AgreesWithViewer(ks: seq<nat>)
    requires |ks| == 3 || |ks| == 4
    ensures Flatten(Triangles(ks)) == ObjViewer.Triangulate(ks)
  {
    if |ks| == 3 {
      assert Flatten(Triangles(ks)) == ks + [];
    } else {
      var t1: seq<int> := [ks[0], ks[1], ks[2]];
      var t2: seq<int> := [ks[0], ks[2], ks[3]];
      assert Flatten([t2]) == t2 + [];
      assert Flatten([t1, t2]) == t1 + Flatten([t2]);
    }
  }

  /** ... and where they part: a polygon of five or more corners is fanned out by the viewer
      and dropped by the back end. */
  lemma PolygonsDropped(ks: seq<nat>)
    requires |ks| >= 5
    ensures Triangles(ks) == []
    ensures |ObjViewer.Triangulate(ks)| == 3 * (|ks| - 2)
  {
    ObjViewer.TriangulateIsFan(ks);
  }

  // ---------------------------------------------------------------------------------------
  // The imperative reader

  /** The loop over a face line's tokens. */
  method ReadFaceIndices(tokens: seq<string>) returns (r: Result<seq<int>, LoadError>)
    ensures r == FaceIndices(tokens)
  {
    var rs := TokenIndices(tokens);
    var indices: seq<int> := [];
    var i := 0;
    while i < |tokens|
      invariant 0 <= i <= |tokens|
      invariant CollectAll(rs[..i]) == Success(indices)
    {
      assert rs[..i + 1][..i] == rs[..i];
      var idx := FaceIndex(tokens[i]);
      assert rs[i] == idx;
      if idx.Failure? {
        CollectAllStops(rs, i + 1);
        return Failure(idx.error);
      }
      indices := indices + [idx.value];
      i := i + 1;
    }
    assert rs[..i] == rs;
    return Success(indices);
  }

  lemma LoadAllStep(ps: seq<seq<string>>, n: nat, m: Mesh, toFloat: string -> Option<real>)
    requires n < |ps| && LoadAll(ps[..n], toFloat) == Success(m)
    ensures LoadAll(ps[..n + 1], toFloat) == LoadParts(m, ps[n], toFloat)
  {
    assert ps[..n + 1][..n] == ps[..n];
  }

  lemma VertexLineLoads(m: Mesh, parts: seq<string>, toFloat: string -> Option<real>)
    requires |parts| > 0 && parts[0] == "v"
    ensures var v := VertexOf(parts, toFloat);
      LoadParts(m, parts, toFloat) == if v.Success? then Success(Mesh(m.vertices + [v.value], m.faces)) else Failure(v.error)
  {
  }

  lemma FaceLineLoads(m: Mesh, parts: seq<string>, toFloat: string -> Option<real>)
    requires |parts| > 0 && parts[0] == "f"
    ensures var ix := FaceIndices(parts[1..]);
      LoadParts(m, parts, toFloat) == if ix.Success? then Success(Mesh(m.vertices, m.faces + Triangles(ix.value))) else Failure(ix.error)
  {
  }

  lemma LoadAllStops(ps: seq<seq<string>>, n: nat, toFloat: string -> Option<real>)
    requires n <= |ps| && LoadAll(ps[..n], toFloat).Failure?
    ensures LoadAll(ps, toFloat) == LoadAll(ps[..n], toFloat)
  {
    FirstErrorWins(ps[..n], ps[n..], toFloat);
    assert ps[..n] + ps[n..] == ps;
  }

  /** The branch on a face line's size: a triangle is appended, a quad as two triangles. */
  method AddTriangles(faces: seq<seq<int>>, ix: seq<int>) returns (r: seq<seq<int>>)
    ensures r == faces + Triangles(ix)
  {
    r := faces;
    if |ix| == 3 {
      r := r + [ix];
    } else if |ix| == 4 {
      r := r + [[ix[0], ix[1], ix[2]]];
      r := r + [[ix[0], ix[2], ix[3]]];
    }
  }

  /** The body of the line loop on a line's fields: blank and other lines change nothing, a
      vertex line appends its vertex, a face line its triangles, and a bad line fails. */
  method LoadLine(m: Mesh, parts: seq<string>, toFloat: string -> Option<real>) returns (r: Result<Mesh, LoadError>)
    ensures r == LoadParts(m, parts, toFloat)
  {
    if |parts| == 0 {
      OtherLinesSkipped(m, parts, toFloat);
      return Success(m);
    }
    if parts[0] == "v" {
      VertexLineLoads(m, parts, toFloat);
      var v := VertexOf(parts, toFloat);
      if v.Failure? {
        return Failure(v.error);
      }
      return Success(Mesh(m.vertices + [v.value], m.faces));
    } else if parts[0] == "f" {
      FaceLineLoads(m, parts, toFloat);
      var indices := ReadFaceIndices(parts[1..]);
      if indices.Failure? {
        return Failure(indices.error);
      }
      var faces := AddTriangles(m.faces, indices.value);
      return Success(Mesh(m.vertices, faces));
    } else {
      OtherLinesSkipped(m, parts, toFloat);
      return Success(m);
    }
  }

  /** One more line: the loop over a longer prefix of the lines takes one more step. */
  lemma LoadLinesStep(lines: seq<string>, n: nat, m: Mesh, toFloat: string -> Option<real>)
    requires n < |lines| && LoadAll(SplitLines(lines)[..n], toFloat) == Success(m)
    ensures LoadAll(SplitLines(lines)[..n + 1], toFloat) == LoadParts(m, LineParts(lines[n]), toFloat)
  {
    LoadAllStep(SplitLines(lines), n, m, toFloat);
  }

  /** A failing line decides the result of `load_obj`. */
  lemma LoadLinesFail(lines: seq<string>, n: nat, e: LoadError, toFloat: string -> Option<real>)
    requires n <= |lines| && LoadAll(SplitLines(lines)[..n], toFloat) == Failure(e)
    ensures LoadObj(lines, toFloat) == Failure(Message(e))
  {
    LoadAllStops(SplitLines(lines), n, toFloat);
  }

  /** After the last line, the check for vertices decides. */
  lemma LoadLinesDone(lines: seq<string>, m: Mesh, toFloat: string -> Option<real>)
    requires LoadAll(SplitLines(lines)[..|lines|], toFloat) == Success(m)
    ensures LoadObj(lines, toFloat) == if m.vertices == [] then Failure(Message(NoVertices)) else Success(m)
  {
    assert SplitLines(lines)[..|lines|] == SplitLines(lines);
  }

  /** `load_obj` as the source writes it: one pass over the lines with early exit. */
  method LoadObjLines(lines: seq<string>, toFloat: string -> Option<real>) returns (r: Result<Mesh, string>)
    ensures r == LoadObj(lines, toFloat)
  {
    var mesh := Mesh([], []);
    var n := 0;
    while n < |lines|
      invariant 0 <= n <= |lines|
      invariant LoadAll(SplitLines(lines)[..n], toFloat) == Success(mesh)
    {
      var parts := LineParts(lines[n]);
      LoadLinesStep(lines, n, mesh, toFloat);
      var next := LoadLine(mesh, parts, toFloat);
      if next.Failure? {
        LoadLinesFail(lines, n + 1, next.error, toFloat);
        return Failure(Message(next.error));
      }
      mesh := next.value;
      n := n + 1;
    }
    LoadLinesDone(lines, mesh, toFloat);
    if |mesh.vertices| == 0 {
      return Failure(Message(NoVertices));
    }
    return Success(mesh);
  }
}
