/** The browser-side OBJ reader of the 3-D viewer: `parseOBJ` turns the text of a Wavefront
    OBJ file into a list of vertex positions and a flat list of triangle corner indices,
    and the viewer then packs them into a position buffer and a 32-bit index buffer.
    `parseFloat` is a parameter: the model does not fix how a coordinate token becomes a
    number. */
module ObjViewer {
  import opened Wrappers
  import opened Text
  import opened Geometry

  /** What a line of OBJ text is to the parser. */
  datatype ObjLine =
    | Skipped                                       // empty once trimmed, or a `#` comment
    | VertexLine(xs: string, ys: string, zs: string)
    | FaceLine(tokens: seq<string>)
    | Ignored                                       // any other tag, or too few fields

  function ClassifyLine(raw: string): (k: ObjLine)
    ensures k.FaceLine? ==> |k.tokens| >= 3
  {
    ClassifyTrimmed(Trim(JsSpaces, raw))
  }

  function ClassifyTrimmed(line: string): (k: ObjLine)
    ensures k.FaceLine? ==> |k.tokens| >= 3
  {
    if line == [] || line[0] == '#' then Skipped
    else ClassifyFields(Fields(JsSpaces, line))
  }

  /** The tag and field-count tests on the fields of a line. */
  function ClassifyFields(parts: seq<string>): (k: ObjLine)
    ensures k.FaceLine? ==> |k.tokens| >= 3
  {
    if |parts| >= 4 && parts[0] == "v" then VertexLine(parts[1], parts[2], parts[3])
    else if |parts| >= 4 && parts[0] == "f" then FaceLine(parts[1..])
    else Ignored
  }

  /** The 0-based vertex index a face token names (`v`, `v/vt`, `v/vt/vn` or `v//vn`):
      `parseInt` of the part before the first slash, minus one; the token is dropped
      when that is negative or not a number. */
  function FaceIndex(token: string): Option<nat>
  {
    match JsParseInt(SplitOn(token, '/')[0])
    case Some(n) => if n - 1 >= 0 then Some(n - 1) else None
    case None => None
  }

  /** The present values of a list of options, in order. */
  function Present(opts: seq<Option<nat>>): (r: seq<nat>)
    ensures |r| <= |opts|
  {
    if opts == [] then []
    else
      var init := Present(opts[..|opts| - 1]);
      match opts[|opts| - 1]
      case Some(i) => init + [i]
      case None => init
  }

  /** Every value kept is the value of one of the options. */
  lemma {:induction false} PresentFrom(opts: seq<Option<nat>>)
    ensures forall k :: 0 <= k < |Present(opts)| ==>
      exists j :: 0 <= j < |opts| && opts[j] == Some(Present(opts)[k])
  {
    if opts != [] {
      var front := opts[..|opts| - 1];
      PresentFrom(front);
      var r, init := Present(opts), Present(front);
      forall k | 0 <= k < |r|
        ensures exists j :: 0 <= j < |opts| && opts[j] == Some(r[k])
      {
        if k < |init| {
          assert r[k] == init[k];
          var j :| 0 <= j < |front| && front[j] == Some(init[k]);
          assert opts[j] == front[j];
        } else {
          assert opts[|opts| - 1] == Some(r[k]);
        }
      }
    } else {
      assert Present(opts) == [];
    }
  }

  /** Options that are all present give back their values. */
  lemma {:induction false} PresentAll(vs: seq<nat>)
    ensures Present(seq(|vs|, i requires 0 <= i < |vs| => Some(vs[i]))) == vs
  {
    if vs != [] {
      var front := vs[..|vs| - 1];
      PresentAll(front);
      var opts := seq(|vs|, i requires 0 <= i < |vs| => Some(vs[i]));
      assert opts[..|vs| - 1] == seq(|front|, i requires 0 <= i < |front| => Some(front[i]));
    }
  }

  function FaceIndices(tokens: seq<string>): (r: seq<Option<nat>>)
    ensures |r| == |tokens|
  {
    seq(|tokens|, i requires 0 <= i < |tokens| => FaceIndex(tokens[i]))
  }

  /** The indices of the face tokens that survive, in order. */
  function SurvivingIndices(tokens: seq<string>): (r: seq<nat>)
    ensures |r| <= |tokens|
  {
    Present(FaceIndices(tokens))
  }

  /** Every surviving index is the index some token of the face names. */
  lemma SurvivingFromTokens(tokens: seq<string>)
    ensures forall k :: 0 <= k < |SurvivingIndices(tokens)| ==>
      exists j :: 0 <= j < |tokens| && FaceIndex(tokens[j]) == Some(SurvivingIndices(tokens)[k])
  {
    var opts := FaceIndices(tokens);
    var r := SurvivingIndices(tokens);
    assert r == Present(opts);
    PresentFrom(opts);
    forall k | 0 <= k < |r|
      ensures exists j :: 0 <= j < |tokens| && FaceIndex(tokens[j]) == Some(r[k])
    {
      var j :| 0 <= j < |opts| && opts[j] == Some(r[k]);
      assert FaceIndex(tokens[j]) == opts[j];
    }
  }

  /** The fan of triangles (fv[0], fv[i], fv[i+1]) for i = 1 .. m, flattened in order. */
  function Fan(fv: seq<nat>, m: nat): (r: seq<nat>)
    requires m + 1 < |fv|
    ensures |r| == 3 * m
    ensures forall t :: 0 <= t < m ==>
      r[3 * t] == fv[0] && r[3 * t + 1] == fv[t + 1] && r[3 * t + 2] == fv[t + 2]
  {
    if m == 0 then [] else Fan(fv, m - 1) + [fv[0], fv[m], fv[m + 1]]
  }

  /** The triangles of one face, by the three branches of the source: a triangle as is,
      a quad as two triangles, a larger polygon as a fan; fewer than three surviving
      corners give nothing. */
  function Triangulate(fv: seq<nat>): seq<nat>
  {
    if |fv| == 3 then [fv[0], fv[1], fv[2]]
    else if |fv| == 4 then [fv[0], fv[1], fv[2], fv[0], fv[2], fv[3]]
    else if |fv| > 4 then Fan(fv, |fv| - 2)
    else []
  }

  /** All three branches are the same fan rule: a polygon of k >= 3 corners becomes k - 2
      triangles that share its first corner, and smaller faces disappear. */
  lemma TriangulateIsFan(fv: seq<nat>)
    ensures |fv| >= 3 ==> Triangulate(fv) == Fan(fv, |fv| - 2)
    ensures |fv| >= 3 ==> |Triangulate(fv)| == 3 * (|fv| - 2)
    ensures |fv| < 3 ==> Triangulate(fv) == []
  {
    if |fv| == 3 || |fv| == 4 {
      assert Fan(fv, 0) == [];
      assert Fan(fv, 1) == [fv[0], fv[1], fv[2]];
      assert |fv| == 4 ==> Fan(fv, 2) == [fv[0], fv[1], fv[2], fv[0], fv[2], fv[3]];
    }
  }

  /** Every corner of every triangle is one of the face's own corners. */
  lemma TriangulateCorners(fv: seq<nat>)
    ensures |Triangulate(fv)| % 3 == 0
    ensures forall k :: 0 <= k < |Triangulate(fv)| ==> Triangulate(fv)[k] in fv
  {
    TriangulateIsFan(fv);
    if |fv| >= 3 {
      var r := Fan(fv, |fv| - 2);
      forall k | 0 <= k < |r|
        ensures r[k] in fv
      {
        var t := k / 3;
        assert k == 3 * t || k == 3 * t + 1 || k == 3 * t + 2;
      }
    }
  }

  /** The two lists `parseOBJ` returns. */
  datatype Parsed = Parsed(vertices: seq<Vec3>, faces: seq<nat>)

  /** One turn of the loop over the lines, once the line is classified. */
  function Step(acc: Parsed, k: ObjLine, parseFloat: string -> real): Parsed
  {
    match k
    case VertexLine(xs, ys, zs) =>
      acc.(vertices := acc.vertices + [Vec3(parseFloat(xs), parseFloat(ys), parseFloat(zs))])
    case FaceLine(tokens) => acc.(faces := acc.faces + Triangulate(SurvivingIndices(tokens)))
    case _ => acc
  }

  /** The loop over classified lines. */
  function ParseClassified(ks: seq<ObjLine>, parseFloat: string -> real): Parsed
  {
    if ks == [] then Parsed([], [])
    else Step(ParseClassified(ks[..|ks| - 1], parseFloat), ks[|ks| - 1], parseFloat)
  }

  function Classify(lines: seq<string>): (ks: seq<ObjLine>)
    ensures |ks| == |lines|
  {
    seq(|lines|, i requires 0 <= i < |lines| => ClassifyLine(lines[i]))
  }

  /** The loop over the lines of the text. */
  function ParseLines(lines: seq<string>, parseFloat: string -> real): Parsed
  {
    if lines == [] then Parsed([], [])
    else Step(ParseLines(lines[..|lines| - 1], parseFloat), ClassifyLine(lines[|lines| - 1]), parseFloat)
  }

  lemma {:induction false} ParseLinesClassified(lines: seq<string>, parseFloat: string -> real)
    ensures ParseLines(lines, parseFloat) == ParseClassified(Classify(lines), parseFloat)
  {
    if lines != [] {
      var front := lines[..|lines| - 1];
      ParseLinesClassified(front, parseFloat);
      assert Classify(lines)[..|lines| - 1] == Classify(front);
    }
  }

  /** `parseOBJ(text)`: the lines are the pieces between newline characters. */
  function ParseObjText(text: string, parseFloat: string -> real): Parsed
  {
    ParseLines(SplitOn(text, '\n'), parseFloat)
  }

  /** A line's effect does not depend on what came before it: it only appends. */
  lemma StepAppends(acc: Parsed, k: ObjLine, parseFloat: string -> real)
    ensures var one := Step(Parsed([], []), k, parseFloat);
      Step(acc, k, parseFloat) == Parsed(acc.vertices + one.vertices, acc.faces + one.faces)
  {
  }

  /** Parsing two runs of lines one after the other is parsing each and concatenating the
      results, so vertices and triangles keep the order of the file. */
  lemma {:induction false} ParseAppend(a: seq<ObjLine>, b: seq<ObjLine>, parseFloat: string -> real)
    ensures var pa, pb := ParseClassified(a, parseFloat), ParseClassified(b, parseFloat);
      ParseClassified(a + b, parseFloat) == Parsed(pa.vertices + pb.vertices, pa.faces + pb.faces)
  {
    if b != [] {
      var front := b[..|b| - 1];
      assert (a + b)[..|a + b| - 1] == a + front;
      ParseAppend(a, front, parseFloat);
      StepAppends(ParseClassified(a + front, parseFloat), b[|b| - 1], parseFloat);
      StepAppends(ParseClassified(front, parseFloat), b[|b| - 1], parseFloat);
    } else {
      assert a + b == a;
    }
  }

  lemma ClassifyAppend(a: seq<string>, b: seq<string>)
    ensures Classify(a + b) == Classify(a) + Classify(b)
  {
  }

  /** The same for the lines of the text: vertices and triangles keep the order of the
      file, and each line contributes on its own. */
  lemma ParseLinesAppend(a: seq<string>, b: seq<string>, parseFloat: string -> real)
    ensures var pa, pb := ParseLines(a, parseFloat), ParseLines(b, parseFloat);
      ParseLines(a + b, parseFloat) == Parsed(pa.vertices + pb.vertices, pa.faces + pb.faces)
  {
    ParseLinesClassified(a, parseFloat);
    ParseLinesClassified(b, parseFloat);
    ParseLinesClassified(a + b, parseFloat);
    ClassifyAppend(a, b);
    ParseAppend(Classify(a), Classify(b), parseFloat);
  }

  /** The text's face list is made of whole triangles. */
  lemma TextFacesAreTriangles(text: string, parseFloat: string -> real)
    ensures |ParseObjText(text, parseFloat).faces| % 3 == 0
  {
    ParseLinesClassified(SplitOn(text, '\n'), parseFloat);
    FacesAreTriangles(Classify(SplitOn(text, '\n')), parseFloat);
  }

  /** The face list is always made of whole triangles. */
  lemma {:induction false} FacesAreTriangles(ks: seq<ObjLine>, parseFloat: string -> real)
    ensures |ParseClassified(ks, parseFloat).faces| % 3 == 0
  {
    if ks != [] {
      FacesAreTriangles(ks[..|ks| - 1], parseFloat);
      StepKeepsTriangles(ParseClassified(ks[..|ks| - 1], parseFloat), ks[|ks| - 1], parseFloat);
    }
  }

  /** One turn of the loop appends whole triangles only. */
  lemma StepKeepsTriangles(acc: Parsed, k: ObjLine, parseFloat: string -> real)
    requires |acc.faces| % 3 == 0
    ensures |Step(acc, k, parseFloat).faces| % 3 == 0
  {
    if k.FaceLine? {
      TriangulateCorners(SurvivingIndices(k.tokens));
    }
  }

  /** Blank lines and comments change nothing. */
  lemma SkippedLinesIgnored(acc: Parsed, raw: string, parseFloat: string -> real)
    requires Trim(JsSpaces, raw) == [] || Trim(JsSpaces, raw)[0] == '#'
    ensures Step(acc, ClassifyLine(raw), parseFloat) == acc
  {
  }

  // ---------------------------------------------------------------------------------------
  // Writing OBJ lines and reading them back

  /** The 1-based token OBJ writes for a 0-based vertex index. */
  function OneBased(ks: seq<nat>): (r: seq<string>)
    ensures |r| == |ks|
  {
    seq(|ks|, i requires 0 <= i < |ks| => NatToString(ks[i] + 1))
  }

  lemma DigitsNoSpace(s: string)
    requires forall i :: 0 <= i < |s| ==> IsDecimalDigit(s[i])
    ensures NoSpace(JsSpaces, s) && '/' !in s
  {
    VisibleNoSpace(s);
  }

  /** A face token written as `k+1` names vertex `k`. */
  lemma FaceIndexOfToken(k: nat)
    ensures FaceIndex(NatToString(k + 1)) == Some(k)
  {
    var d := NatToString(k + 1);
    VertexPartOf(d, []);
    JsParseIntOfNatToString(k + 1);
  }

  /** So do `k+1/vt`, `k+1/vt/vn` and `k+1//vn`: what follows the first slash is ignored. */
  lemma FaceIndexOfSlashedToken(k: nat, rest: string)
    ensures FaceIndex(NatToString(k + 1) + "/" + rest) == Some(k)
  {
    var d := NatToString(k + 1);
    VertexPartOf(d, rest);
    JsParseIntOfNatToString(k + 1);
  }

  lemma VertexPartOf(d: string, rest: string)
    requires forall i :: 0 <= i < |d| ==> IsDecimalDigit(d[i])
    ensures SplitOn(d, '/')[0] == d
    ensures SplitOn(d + "/" + rest, '/')[0] == d
  {
    DigitsNoSpace(d);
    SplitOnNoSep(d, '/');
    SplitOnPrefix(d, rest, '/');
  }

  /** Tokens `0` and negative (relative) indices are dropped. */
  lemma FaceIndexDropsNonPositive(n: nat)
    ensures FaceIndex(NatToString(0)) == None
    ensures FaceIndex("-" + NatToString(n)) == None
  {
    var d := NatToString(n);
    DigitsNoSpace(d);
    DigitsNoSpace(NatToString(0));
    SplitOnNoSep(NatToString(0), '/');
    SplitOnNoSep("-" + d, '/');
    JsParseIntOfNatToString(n);
    JsParseIntOfNatToString(0);
  }

  lemma SurvivingOneBased(ks: seq<nat>)
    ensures SurvivingIndices(OneBased(ks)) == ks
  {
    var tokens := OneBased(ks);
    forall i | 0 <= i < |ks|
      ensures FaceIndices(tokens)[i] == Some(ks[i])
    {
      assert tokens[i] == NatToString(ks[i] + 1);
      FaceIndexOfToken(ks[i]);
    }
    assert FaceIndices(tokens) == seq(|ks|, i requires 0 <= i < |ks| => Some(ks[i]));
    PresentAll(ks);
  }

  /** The text of the face line `f k1+1 k2+1 ... kn+1`. */
  function FaceLineText(ks: seq<nat>): string
  {
    JoinWith(["f"] + OneBased(ks), ' ')
  }

  /** How a trimmed, non-comment line is classified by its fields. */
  lemma ClassifyByFields(line: string, words: seq<string>)
    requires line != [] && line[0] != '#' && Trim(JsSpaces, line) == line
    requires Fields(JsSpaces, line) == words
    ensures ClassifyLine(line) == ClassifyFields(words)
  {
  }

  lemma OneBasedWords(ks: seq<nat>)
    ensures forall i :: 0 <= i < |ks| ==> OneBased(ks)[i] != [] && NoSpace(JsSpaces, OneBased(ks)[i])
  {
    forall i | 0 <= i < |ks|
      ensures OneBased(ks)[i] != [] && NoSpace(JsSpaces, OneBased(ks)[i])
    {
      DigitsNoSpace(OneBased(ks)[i]);
    }
  }

  /** A line of space-separated non-empty words is its own trim, and its fields are the words. */
  lemma JoinedLine(words: seq<string>)
    requires words != []
    requires forall i :: 0 <= i < |words| ==> words[i] != [] && NoSpace(JsSpaces, words[i])
    ensures var line := JoinWith(words, ' ');
      line != [] && line[0] == words[0][0] && Trim(JsSpaces, line) == line
      && Fields(JsSpaces, line) == words
  {
    var line := JoinWith(words, ' ');
    JoinHead(words, ' ');
    JoinLast(words, ' ');
    TrimOfUnpadded(JsSpaces, line);
    BlankIsSpace();
    FieldsOfJoined(JsSpaces, words);
  }

  lemma FaceWords(ks: seq<nat>)
    ensures var words := ["f"] + OneBased(ks);
      forall i :: 0 <= i < |words| ==> words[i] != [] && NoSpace(JsSpaces, words[i])
  {
    var words := ["f"] + OneBased(ks);
    OneBasedWords(ks);
    VisibleNoSpace("f");
    assert forall i :: 1 <= i < |words| ==> words[i] == OneBased(ks)[i - 1];
  }

  lemma ClassifyFaceLine(ks: seq<nat>)
    requires |ks| >= 3
    ensures ClassifyLine(FaceLineText(ks)) == FaceLine(OneBased(ks))
  {
    var words := ["f"] + OneBased(ks);
    FaceWords(ks);
    JoinedLine(words);
    ClassifyByFields(FaceLineText(ks), words);
    assert words[0] == "f" && words[1..] == OneBased(ks);
  }

  /** Reading back a face line written from 0-based indices k1 .. kn adds exactly the
      triangles of that polygon, whatever the vertex list holds: the indices are not
      checked against it. */
  lemma FaceLineRoundTrip(acc: Parsed, ks: seq<nat>, parseFloat: string -> real)
    requires |ks| >= 3
    ensures Step(acc, ClassifyLine(FaceLineText(ks)), parseFloat)
         == acc.(faces := acc.faces + Triangulate(ks))
  {
    ClassifyFaceLine(ks);
    SurvivingOneBased(ks);
  }

  /** The line `v x y z` adds the vertex made of the three coordinate tokens. */
  lemma VertexLineRoundTrip(xs: string, ys: string, zs: string)
    requires xs != [] && ys != [] && zs != []
    requires NoSpace(JsSpaces, xs) && NoSpace(JsSpaces, ys) && NoSpace(JsSpaces, zs)
    ensures ClassifyLine(JoinWith(["v", xs, ys, zs], ' ')) == VertexLine(xs, ys, zs)
  {
    VertexWords(xs, ys, zs);
    ClassifyJoined(["v", xs, ys, zs]);
  }

  /** A line of space-separated words that does not start a comment is classified by
      those words. */
  lemma ClassifyJoined(words: seq<string>)
    requires words != [] && words[0] != [] && words[0][0] != '#'
    requires forall i :: 0 <= i < |words| ==> words[i] != [] && NoSpace(JsSpaces, words[i])
    ensures ClassifyLine(JoinWith(words, ' ')) == ClassifyFields(words)
  {
    JoinedLine(words);
    ClassifyByFields(JoinWith(words, ' '), words);
  }

  lemma VertexWords(xs: string, ys: string, zs: string)
    requires xs != [] && ys != [] && zs != []
    requires NoSpace(JsSpaces, xs) && NoSpace(JsSpaces, ys) && NoSpace(JsSpaces, zs)
    ensures var words := ["v", xs, ys, zs];
      forall i :: 0 <= i < |words| ==> words[i] != [] && NoSpace(JsSpaces, words[i])
  {
    var words := ["v", xs, ys, zs];
    VisibleNoSpace("v");
    forall i | 0 <= i < |words|
      ensures words[i] != [] && NoSpace(JsSpaces, words[i])
    {
      if i == 0 {
        assert words[i] == "v";
      } else if i == 1 {
        assert words[i] == xs;
      } else if i == 2 {
        assert words[i] == ys;
      } else {
        assert words[i] == zs;
      }
    }
  }

  // ---------------------------------------------------------------------------------------
  // The imperative parser

  lemma PresentSnoc(opts: seq<Option<nat>>, o: Option<nat>)
    ensures Present(opts + [o]) == Present(opts) + (if o.Some? then [o.value] else [])
  {
    assert (opts + [o])[..|opts|] == opts;
  }

  /** The inner loop over a face line's tokens. */
  method CollectFaceVertices(tokens: seq<string>) returns (faceVertices: seq<nat>)
    ensures faceVertices == SurvivingIndices(tokens)
  {
    faceVertices := [];
    var i := 0;
    while i < |tokens|
      invariant 0 <= i <= |tokens|
      invariant faceVertices == SurvivingIndices(tokens[..i])
    {
      var vertexIndex := FaceIndex(tokens[i]);
      SurvivingStep(tokens, i);
      if vertexIndex.Some? {
        faceVertices := faceVertices + [vertexIndex.value];
      }
      i := i + 1;
    }
    assert tokens[..i] == tokens;
  }

  /** One more token: its index survives or not. */
  lemma SurvivingStep(tokens: seq<string>, i: nat)
    requires i < |tokens|
    ensures var o := FaceIndex(tokens[i]);
      SurvivingIndices(tokens[..i + 1]) == SurvivingIndices(tokens[..i]) + (if o.Some? then [o.value] else [])
  {
    assert FaceIndices(tokens[..i + 1]) == FaceIndices(tokens[..i]) + [FaceIndex(tokens[i])];
    PresentSnoc(FaceIndices(tokens[..i]), FaceIndex(tokens[i]));
  }

  /** Appends the triangles of one face to `faces`. */
  method PushTriangles(faces: seq<nat>, fv: seq<nat>) returns (out: seq<nat>)
    ensures out == faces + Triangulate(fv)
  {
    out := faces;
    if |fv| == 3 {
      out := out + [fv[0], fv[1], fv[2]];
    } else if |fv| == 4 {
      out := out + [fv[0], fv[1], fv[2]];
      out := out + [fv[0], fv[2], fv[3]];
    } else if |fv| > 4 {
      var i := 1;
      while i < |fv| - 1
        invariant 1 <= i <= |fv| - 1
        invariant out == faces + Fan(fv, i - 1)
      {
        out := out + [fv[0], fv[i], fv[i + 1]];
        i := i + 1;
      }
    }
  }

  /** The loop over a longer prefix of the lines takes one more step. */
  lemma ParseLinesStep(lines: seq<string>, n: nat, parseFloat: string -> real)
    requires n < |lines|
    ensures ParseLines(lines[..n + 1], parseFloat) == Step(ParseLines(lines[..n], parseFloat), ClassifyLine(lines[n]), parseFloat)
  {
    assert lines[..n + 1][..n] == lines[..n];
  }

  /** The body of the line loop: a vertex line pushes its vertex, a face line its triangles,
      and any other line nothing. */
  method ParseLine(vertices: seq<Vec3>, faces: seq<nat>, line: string, parseFloat: string -> real)
    returns (vs: seq<Vec3>, fs: seq<nat>)
    ensures Parsed(vs, fs) == Step(Parsed(vertices, faces), ClassifyLine(line), parseFloat)
  {
    vs, fs := vertices, faces;
    match ClassifyLine(line) {
      case VertexLine(xs, ys, zs) =>
        vs := vertices + [Vec3(parseFloat(xs), parseFloat(ys), parseFloat(zs))];
      case FaceLine(tokens) =>
        var faceVertices := CollectFaceVertices(tokens);
        fs := PushTriangles(faces, faceVertices);
      case _ =>
    }
  }

  /** `parseOBJ`: one pass over the lines, pushing vertices and triangles as they come. */
  method ParseObj(text: string, parseFloat: string -> real) returns (vertices: seq<Vec3>, faces: seq<nat>)
    ensures Parsed(vertices, faces) == ParseObjText(text, parseFloat)
    ensures |faces| % 3 == 0
  {
    vertices, faces := [], [];
    var lines := SplitOn(text, '\n');
    var n := 0;
    while n < |lines|
      invariant 0 <= n <= |lines|
      invariant Parsed(vertices, faces) == ParseLines(lines[..n], parseFloat)
    {
      ParseLinesStep(lines, n, parseFloat);
      vertices, faces := ParseLine(vertices, faces, lines[n], parseFloat);
      n := n + 1;
    }
    assert lines[..n] == lines;
    TextFacesAreTriangles(text, parseFloat);
  }

  // ---------------------------------------------------------------------------------------
  // Geometry buffers

  const NoVerticesMessage: string := "No vertices found in OBJ file"

  /** The flat position buffer: x, y, z of vertex i at 3i, 3i+1, 3i+2; an error when the
      file has no vertex at all. */
  method BuildPositions(vertices: seq<Vec3>) returns (r: Result<array<real>, string>)
    ensures r.Failure? <==> vertices == []
    ensures r.Failure? ==> r.error == NoVerticesMessage
    ensures r.Success? ==> fresh(r.value) && r.value.Length == 3 * |vertices|
    ensures r.Success? ==> forall i :: 0 <= i < |vertices| ==>
      r.value[3 * i] == vertices[i].x && r.value[3 * i + 1] == vertices[i].y
      && r.value[3 * i + 2] == vertices[i].z
  {
    if |vertices| == 0 {
      return Failure(NoVerticesMessage);
    }
    var positions := new real[3 * |vertices|];
    var i := 0;
    while i < |vertices|
      invariant 0 <= i <= |vertices|
      invariant forall j :: 0 <= j < i ==>
        positions[3 * j] == vertices[j].x && positions[3 * j + 1] == vertices[j].y
        && positions[3 * j + 2] == vertices[j].z
    {
      positions[3 * i] := vertices[i].x;
      positions[3 * i + 1] := vertices[i].y;
      positions[3 * i + 2] := vertices[i].z;
      i := i + 1;
    }
    return Success(positions);
  }

  const Uint32Modulus: nat := 0x1_0000_0000

  /** The index buffer: none for a file without faces, otherwise every index converted to
      an unsigned 32-bit integer. */
  function IndexBuffer(faces: seq<nat>): (r: Option<seq<nat>>)
    ensures r.None? <==> faces == []
    ensures r.Some? ==> |r.value| == |faces|
    ensures r.Some? ==> forall i :: 0 <= i < |faces| ==>
      r.value[i] < Uint32Modulus && (faces[i] < Uint32Modulus ==> r.value[i] == faces[i])
  {
    if faces == [] then None
    else Some(seq(|faces|, i requires 0 <= i < |faces| => faces[i] % Uint32Modulus))
  }
}
