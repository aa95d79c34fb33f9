/** The Wavefront .obj text of a mesh: what `obj2binobj.py` parses and what `binobj2obj.py` prints. */
module MeshObj {
  import opened MeshFormat
  import opened MeshText
  import opened Options

  // ----- Floats -----

  /** `'%.9g' % x` and `float(text)` rounded to 32 bits; `None` stands for a ValueError or an OverflowError. */
  datatype Floats = Floats(format: Float -> string, parse: string -> Option<Float>)

  /** The one NaN that the printed text "nan" parses to */
  const NAN: Float := 0x7FC0_0000

  predicate IsNaN(x: Float) { x % 0x8000_0000 > 0x7F80_0000 }

  function Canonical(x: Float): Float {
    if IsNaN(x) then NAN else x
  }

  /** Nine significant digits identify a float, and only the bits of a NaN are lost. */
  ghost predicate Faithful(f: Floats) {
    forall x: Float :: IsWord(f.format(x)) && f.parse(f.format(x)) == Some(Canonical(x))
  }

  // ----- Parsing -----

  datatype Table = Positions | Uvs | Normals

  function Tag(t: Table): string {
    match t case Positions => "v" case Uvs => "vt" case Normals => "vn"
  }

  function Width(t: Table): (w: nat)
    ensures w == 2 || w == 3
  {
    if t == Uvs then 2 else 3
  }

  function ValuesOf(m: Mesh, t: Table): seq<Float> {
    match t case Positions => m.positions case Uvs => m.uvs case Normals => m.normals
  }

  function Add(m: Mesh, t: Table, values: seq<Float>): Mesh {
    match t
    case Positions => m.(positions := m.positions + values)
    case Uvs => m.(uvs := m.uvs + values)
    case Normals => m.(normals := m.normals + values)
  }

  /** The first `count` words as floats; a missing one is an IndexError. */
  function ParseFloats(f: Floats, words: seq<string>, count: nat): Option<seq<Float>>
    decreases count
  {
    if count == 0 then Some([])
    else if words == [] then None
    else match f.parse(words[0])
      case None => None
      case Some(x) =>
        match ParseFloats(f, words[1..], count - 1)
        case None => None
        case Some(values) => Some([x] + values)
  }

  function ParseRow(f: Floats, m: Mesh, t: Table, words: seq<string>): Option<Mesh> {
    match ParseFloats(f, words, Width(t))
    case None => None
    case Some(values) => Some(Add(m, t, values))
  }

  /** A field counts from one, and a missing one becomes -1. */
  function ParseIndex(field: string): Option<int> {
    if field == "" then Some(-1)
    else match ParseInt(field)
      case None => None
      case Some(n) => Some(n - 1)
  }

  function ParseVertex(vertex: string): Option<Corner> {
    var fields := (Fields(vertex) + ["", ""])[..3];
    match ParseIndex(fields[0])
    case None => None
    case Some(position) =>
    match ParseIndex(fields[1])
    case None => None
    case Some(uv) =>
    match ParseIndex(fields[2])
    case None => None
    case Some(normal) => Some(Corner(position, uv, normal))
  }

  function ParseFace(words: seq<string>): Option<seq<Corner>> {
    if words == [] then Some([])
    else match ParseVertex(words[0])
      case None => None
      case Some(corner) =>
        match ParseFace(words[1..])
        case None => None
        case Some(corners) => Some([corner] + corners)
  }

  /** The triangles with the vertices up to `last` */
  function FanTo(face: seq<Corner>, last: nat): seq<Corner>
    requires last < |face|
  {
    if last < 2 then [] else FanTo(face, last - 1) + [face[0], face[last - 1], face[last]]
  }

  function Fan(face: seq<Corner>): seq<Corner> {
    if face == [] then [] else FanTo(face, |face| - 1)
  }

  function ParseWords(f: Floats, m: Mesh, words: seq<string>): Option<Mesh> {
    if words == [] || "#" <= words[0] then Some(m)
    else if words[0] == "v" then ParseRow(f, m, Positions, words[1..])
    else if words[0] == "vt" then ParseRow(f, m, Uvs, words[1..])
    else if words[0] == "vn" then ParseRow(f, m, Normals, words[1..])
    else if words[0] == "f" then
      match ParseFace(words[1..])
      case None => None
      case Some(face) => Some(m.(corners := m.corners + Fan(face)))
    else Some(m)
  }

  function ParseLine(f: Floats, m: Mesh, line: string): Option<Mesh> { ParseWords(f, m, Words(line)) }

  function ParseLines(f: Floats, m: Mesh, lines: seq<string>): Option<Mesh>
    decreases |lines|
  {
    if lines == [] then Some(m)
    else match ParseLine(f, m, lines[0])
      case None => None
      case Some(next) => ParseLines(f, next, lines[1..])
  }

  const EMPTY := Mesh([], [], [], [])

  function ParseMesh(f: Floats, text: string): Option<Mesh> { ParseLines(f, EMPTY, Lines(text)) }

  // ----- Printing -----

  /** The two comments at the head of the text, each in two parts */
  function FirstComment(): string { FirstCommentStart() + FirstCommentEnd() }

  function FirstCommentStart(): string {
    "# 3D mesh " + "decoded from " + ".binobj (source " + "of truth; baked " + "back"
  }

  function FirstCommentEnd(): string { " to .binobj " + "at build time)." }

  function SecondComment(): string { SecondCommentStart() + SecondCommentEnd() }

  function SecondCommentStart(): string {
    "# UVs are " + "stored raw here; " + "the V coordinate " + "is flipped (1-v)"
  }

  function SecondCommentEnd(): string { " at load time." }

  function Formats(f: Floats, values: seq<Float>): (words: seq<string>)
    ensures |words| == |values|
  {
    if values == [] then [] else [f.format(values[0])] + Formats(f, values[1..])
  }

  function Row(f: Floats, t: Table, values: seq<Float>): string { Joined([Tag(t)] + Formats(f, values)) }

  /** Only whole rows are printed. */
  function Rows(f: Floats, t: Table, values: seq<Float>): seq<string> {
    if |values| < Width(t) then []
    else [Row(f, t, values[..Width(t)])] + Rows(f, t, values[Width(t)..])
  }

  function Vertex(c: Corner): string {
    Decimal(c.position + 1) + "/" + (Decimal(c.uv + 1) + "/" + Decimal(c.normal + 1))
  }

  function FaceLine(a: Corner, b: Corner, c: Corner): string { Joined(["f", Vertex(a), Vertex(b), Vertex(c)]) }

  function FaceLines(corners: seq<Corner>): seq<string> {
    if |corners| < 3 then []
    else [FaceLine(corners[0], corners[1], corners[2])] + FaceLines(corners[3..])
  }

  function MeshLines(f: Floats, m: Mesh): seq<string> {
    [FirstComment(), SecondComment()] + (Rows(f, Positions, m.positions) + (Rows(f, Uvs, m.uvs)
    + (Rows(f, Normals, m.normals) + FaceLines(m.corners))))
  }

  function PrintMesh(f: Floats, m: Mesh): string { Printed(MeshLines(f, m)) }

  // ----- What printing keeps -----

  function Canonicals(values: seq<Float>): (r: seq<Float>)
    ensures |r| == |values|
  {
    if values == [] then [] else [Canonical(values[0])] + Canonicals(values[1..])
  }

  /** The whole rows, with every NaN the canonical one */
  function NormalRows(t: Table, values: seq<Float>): seq<Float> {
    if |values| < Width(t) then []
    else Canonicals(values[..Width(t)]) + NormalRows(t, values[Width(t)..])
  }

  function NormalCorners(corners: seq<Corner>): seq<Corner> {
    if |corners| < 3 then [] else corners[..3] + NormalCorners(corners[3..])
  }

  /** What is left of a mesh in its text */
  function Normal(m: Mesh): Mesh {
    Mesh(NormalRows(Positions, m.positions), NormalRows(Uvs, m.uvs), NormalRows(Normals, m.normals),
         NormalCorners(m.corners))
  }

  predicate Shaped(m: Mesh) {
    |m.positions| % 3 == 0 && |m.uvs| % 2 == 0 && |m.normals| % 3 == 0 && |m.corners| % 3 == 0
  }

  ghost predicate AllCanonical(values: seq<Float>) { forall x | x in values :: Canonical(x) == x }

  ghost predicate CanonicalMesh(m: Mesh) {
    AllCanonical(m.positions) && AllCanonical(m.uvs) && AllCanonical(m.normals)
  }

  // ----- Fans -----

  /** A polygon of n vertices gives n - 2 triangles, each from its first vertex and two neighbours. */
  lemma {:induction false} FanTriangles(face: seq<Corner>, last: nat)
    requires last < |face|
    ensures |FanTo(face, last)| == if last < 2 then 0 else 3 * (last - 1)
    ensures forall i | 1 <= i < last ::
              FanTo(face, last)[3 * (i - 1)..3 * i] == [face[0], face[i], face[i + 1]]
  {
    if last >= 2 {
      FanTriangles(face, last - 1);
      var shorter := FanTo(face, last - 1);
      forall i | 1 <= i < last
        ensures FanTo(face, last)[3 * (i - 1)..3 * i] == [face[0], face[i], face[i + 1]]
      {
        if i < last - 1 {
          assert FanTo(face, last)[3 * (i - 1)..3 * i] == shorter[3 * (i - 1)..3 * i];
        }
      }
    }
  }

  lemma FanOfTriangle(a: Corner, b: Corner, c: Corner)
    ensures Fan([a, b, c]) == [a, b, c]
  {
    var face := [a, b, c];
    assert FanTo(face, 1) == [];
    assert FanTo(face, 2) == [face[0], face[1], face[2]];
  }

  // ----- Parsing what was printed -----

  lemma {:induction false} ParseLinesAppend(f: Floats, m: Mesh, front: seq<string>, back: seq<string>)
    ensures ParseLines(f, m, front + back)
         == match ParseLines(f, m, front) case None => None case Some(next) => ParseLines(f, next, back)
    decreases |front|
  {
    hide ParseLine;
    if front == [] {
      assert front + back == back;
    } else {
      assert (front + back)[1..] == front[1..] + back;
      if ParseLine(f, m, front[0]).Some? {
        ParseLinesAppend(f, ParseLine(f, m, front[0]).value, front[1..], back);
      }
    }
  }

  lemma {:induction false} FormatsAreWords(f: Floats, values: seq<Float>)
    requires Faithful(f)
    ensures AreWords(Formats(f, values))
  {
    if values != [] {
      FormatsAreWords(f, values[1..]);
    }
  }

  lemma {:induction false} ParseFormats(f: Floats, values: seq<Float>)
    requires Faithful(f)
    ensures ParseFloats(f, Formats(f, values), |values|) == Some(Canonicals(values))
  {
    if values != [] {
      assert Formats(f, values)[1..] == Formats(f, values[1..]);
      ParseFormats(f, values[1..]);
    }
  }

  lemma TagIsWord(t: Table)
    ensures IsWord(Tag(t))
  {}

  /** A printed row is one line of words, and it parses to its own values. */
  lemma ParsePrintedRow(f: Floats, m: Mesh, t: Table, values: seq<Float>)
    requires Faithful(f) && |values| == Width(t)
    ensures ParseLine(f, m, Row(f, t, values)) == Some(Add(m, t, Canonicals(values)))
  {
    hide Words, Joined, Formats, ParseFloats, Canonicals, Faithful, IsWord;
    var words := [Tag(t)] + Formats(f, values);
    FormatsAreWords(f, values);
    TagIsWord(t);
    WordsOfJoined(words);
    assert words[1..] == Formats(f, values);
    ParseFormats(f, values);
  }

  /** A line of another tag, an empty one and a comment are skipped. */
  lemma OtherLinesAreSkipped(f: Floats, m: Mesh, words: seq<string>)
    requires words == [] || "#" <= words[0] || words[0] !in ["v", "vt", "vn", "f"]
    ensures ParseWords(f, m, words) == Some(m)
  {}

  /** A row goes to the table of its tag, with as many values as the table is wide; what is behind them is ignored. */
  lemma RowGoesToItsTable(f: Floats, m: Mesh, x: string, y: string, z: string, more: seq<string>)
    requires f.parse(x).Some? && f.parse(y).Some? && f.parse(z).Some?
    ensures var a, b, c := f.parse(x).value, f.parse(y).value, f.parse(z).value;
            && ParseWords(f, m, ["v", x, y, z] + more) == Some(m.(positions := m.positions + [a, b, c]))
            && ParseWords(f, m, ["vt", x, y, z] + more) == Some(m.(uvs := m.uvs + [a, b]))
            && ParseWords(f, m, ["vn", x, y, z] + more) == Some(m.(normals := m.normals + [a, b, c]))
  {
    hide ParseFloats;
    var values := [x, y, z] + more;
    assert (["v", x, y, z] + more)[1..] == values && (["vt", x, y, z] + more)[1..] == values
        && (["vn", x, y, z] + more)[1..] == values;
    FirstFloats(f, x, y, z, more);
    assert "v"[0] == 'v' && "vt"[1] == 't' && "vn"[1] == 'n';
  }

  lemma FirstFloats(f: Floats, x: string, y: string, z: string, more: seq<string>)
    requires f.parse(x).Some? && f.parse(y).Some? && f.parse(z).Some?
    ensures var a, b, c := f.parse(x).value, f.parse(y).value, f.parse(z).value;
            && ParseFloats(f, [x, y, z] + more, 2) == Some([a, b]) && ParseFloats(f, [x, y, z] + more, 3) == Some([a, b, c])
  {
    hide ParseFloats;
    OneFloat(f, z, more, 0);
    OneFloat(f, y, [z] + more, 0);
    OneFloat(f, y, [z] + more, 1);
    OneFloat(f, x, [y, z] + more, 1);
    OneFloat(f, x, [y, z] + more, 2);
    var a, b, c := f.parse(x).value, f.parse(y).value, f.parse(z).value;
    assert [y] + ([z] + more) == [y, z] + more && [x] + ([y, z] + more) == [x, y, z] + more;
    assert [c] + [] == [c] && [b] + [] == [b] && [b] + [c] == [b, c];
    assert [a] + [b] == [a, b] && [a] + [b, c] == [a, b, c];
  }

  lemma OneFloat(f: Floats, word: string, rest: seq<string>, count: nat)
    requires f.parse(word).Some?
    ensures ParseFloats(f, rest, 0) == Some([])
    ensures ParseFloats(f, rest, count).Some?
        ==> ParseFloats(f, [word] + rest, count + 1) == Some([f.parse(word).value] + ParseFloats(f, rest, count).value)
  {
    assert ([word] + rest)[1..] == rest;
  }

  lemma {:induction false} ParsePrintedRows(f: Floats, m: Mesh, t: Table, values: seq<Float>)
    requires Faithful(f)
    ensures ParseLines(f, m, Rows(f, t, values)) == Some(Add(m, t, NormalRows(t, values)))
    decreases |values|
  {
    hide ParseLine, Row, Canonicals, Faithful;
    if |values| < Width(t) {
      AddNothing(m, t);
    } else {
      var row, rest := values[..Width(t)], values[Width(t)..];
      ParsePrintedRow(f, m, t, row);
      ParsePrintedRows(f, Add(m, t, Canonicals(row)), t, rest);
      AddTwice(m, t, Canonicals(row), NormalRows(t, rest));
      assert Rows(f, t, values)[1..] == Rows(f, t, rest);
    }
  }

  lemma AddNothing(m: Mesh, t: Table)
    ensures Add(m, t, []) == m
  {}

  lemma AddTwice(m: Mesh, t: Table, a: seq<Float>, b: seq<Float>)
    ensures Add(Add(m, t, a), t, b) == Add(m, t, a + b)
  {
    assert ValuesOf(m, t) + a + b == ValuesOf(m, t) + (a + b);
  }

  lemma VertexIsWord(c: Corner)
    ensures IsWord(Vertex(c)) && ParseVertex(Vertex(c)) == Some(c)
  {
    hide Decimal, Fields, ParseInt;
    var p, u, n := Decimal(c.position + 1), Decimal(c.uv + 1), Decimal(c.normal + 1);
    ParseIntOfDecimal(c.position + 1);
    ParseIntOfDecimal(c.uv + 1);
    ParseIntOfDecimal(c.normal + 1);
    FieldsOfThree(p, u, n);
    assert ([p, u, n] + ["", ""])[..3] == [p, u, n];
  }

  lemma FieldsOfOne(a: string)
    requires '/' !in a
    ensures Fields(a) == [a]
  {
    FieldLengthIs(a, |a|);
    assert a[..|a|] == a;
  }

  /** A vertex of one field, as in `f 1 2 3`: the position counts from one, and the others are left out. */
  lemma VertexOfPosition(p: int)
    ensures ParseVertex(Decimal(p)) == Some(Corner(p - 1, -1, -1))
  {
    hide Decimal, Fields, ParseInt;
    ParseIntOfDecimal(p);
    FieldsOfOne(Decimal(p));
    assert ([Decimal(p)] + ["", ""])[..3] == [Decimal(p), "", ""];
  }

  /** A vertex of two fields has no normal. */
  lemma VertexOfTwo(p: int, q: int)
    ensures ParseVertex(Decimal(p) + "/" + Decimal(q)) == Some(Corner(p - 1, q - 1, -1))
  {
    hide Decimal, Fields, ParseInt;
    ParseIntOfDecimal(p);
    ParseIntOfDecimal(q);
    FieldsOfOne(Decimal(q));
    FieldsCut(Decimal(p), Decimal(q));
    assert ([Decimal(p), Decimal(q)] + ["", ""])[..3] == [Decimal(p), Decimal(q), ""];
  }

  /** A vertex with an empty field in the middle has no uv. */
  lemma VertexWithoutUv(p: int, q: int)
    ensures ParseVertex(Decimal(p) + "/" + ("" + "/" + Decimal(q))) == Some(Corner(p - 1, -1, q - 1))
  {
    hide Decimal, Fields, ParseInt;
    ParseIntOfDecimal(p);
    ParseIntOfDecimal(q);
    FieldsOfThree(Decimal(p), "", Decimal(q));
    assert ([Decimal(p), "", Decimal(q)] + ["", ""])[..3] == [Decimal(p), "", Decimal(q)];
  }

  /** A whole vertex, and what is behind a third slash is not looked at. */
  lemma VertexOfMore(p: int, q: int, r: int, more: string)
    ensures ParseVertex(Decimal(p) + "/" + (Decimal(q) + "/" + Decimal(r))) == Some(Corner(p - 1, q - 1, r - 1))
    ensures ParseVertex(Decimal(p) + "/" + (Decimal(q) + "/" + (Decimal(r) + "/" + more)))
         == Some(Corner(p - 1, q - 1, r - 1))
  {
    hide Decimal, Fields, ParseInt;
    ParseIntOfDecimal(p);
    ParseIntOfDecimal(q);
    ParseIntOfDecimal(r);
    FieldsOfThree(Decimal(p), Decimal(q), Decimal(r));
    assert ([Decimal(p), Decimal(q), Decimal(r)] + ["", ""])[..3] == [Decimal(p), Decimal(q), Decimal(r)];
    FieldsCut(Decimal(p), Decimal(q) + "/" + (Decimal(r) + "/" + more));
    FieldsCut(Decimal(q), Decimal(r) + "/" + more);
    FieldsCut(Decimal(r), more);
    var fields := [Decimal(p)] + ([Decimal(q)] + ([Decimal(r)] + Fields(more)));
    assert (fields + ["", ""])[..3] == [Decimal(p), Decimal(q), Decimal(r)];
  }

  /** A text that is no integer, or no field at all in a vertex of slashes: the first field that is malformed fails. */
  lemma VertexFailsIff(vertex: string)
    ensures var fields := (Fields(vertex) + ["", ""])[..3];
            ParseVertex(vertex).None?
            <==> exists i :: 0 <= i < 3 && fields[i] != "" && ParseInt(fields[i]).None?
  {
    hide Fields, ParseInt;
    var fields := (Fields(vertex) + ["", ""])[..3];
    assert ParseIndex(fields[0]).None? <==> fields[0] != "" && ParseInt(fields[0]).None?;
    assert ParseIndex(fields[1]).None? <==> fields[1] != "" && ParseInt(fields[1]).None?;
    assert ParseIndex(fields[2]).None? <==> fields[2] != "" && ParseInt(fields[2]).None?;
  }

  lemma ParsePrintedFace(f: Floats, m: Mesh, a: Corner, b: Corner, c: Corner)
    ensures ParseLine(f, m, FaceLine(a, b, c)) == Some(m.(corners := m.corners + [a, b, c]))
  {
    hide Words, Joined, Vertex, ParseVertex, ParseFace, ParseWords, Fan, IsWord;
    var vertices := [Vertex(a), Vertex(b), Vertex(c)];
    FaceTagIsWord();
    VertexIsWord(a);
    VertexIsWord(b);
    VertexIsWord(c);
    ParseThree(Vertex(a), Vertex(b), Vertex(c));
    FaceTag(f, m, vertices);
    WordsOfJoined(["f"] + vertices);
    assert ["f"] + vertices == ["f", Vertex(a), Vertex(b), Vertex(c)];
    FanOfTriangle(a, b, c);
  }

  lemma FaceTagIsWord()
    ensures IsWord("f")
  {}

  lemma FaceTag(f: Floats, m: Mesh, vertices: seq<string>)
    requires ParseFace(vertices).Some?
    ensures ParseWords(f, m, ["f"] + vertices)
         == Some(m.(corners := m.corners + Fan(ParseFace(vertices).value)))
  {
    hide ParseFace, Fan;
    assert (["f"] + vertices)[1..] == vertices;
    assert "f"[0] == 'f';
  }

  lemma ParseOne(first: string, others: seq<string>)
    requires ParseVertex(first).Some? && ParseFace(others).Some?
    ensures ParseFace([first] + others) == Some([ParseVertex(first).value] + ParseFace(others).value)
  {
    hide ParseVertex;
    assert ([first] + others)[1..] == others;
  }

  lemma ParseThree(a: string, b: string, c: string)
    requires ParseVertex(a).Some? && ParseVertex(b).Some? && ParseVertex(c).Some?
    ensures ParseFace([a, b, c]) == Some([ParseVertex(a).value, ParseVertex(b).value, ParseVertex(c).value])
  {
    hide ParseVertex, ParseFace;
    assert [c] + [] == [c] && [b] + [c] == [b, c] && [a] + [b, c] == [a, b, c];
    NoVertices();
    ParseOne(c, []);
    ParseOne(b, [c]);
    ParseOne(a, [b, c]);
    var va, vb, vc := ParseVertex(a).value, ParseVertex(b).value, ParseVertex(c).value;
    assert [vc] + [] == [vc] && [vb] + [vc] == [vb, vc] && [va] + [vb, vc] == [va, vb, vc];
  }

  lemma NoVertices()
    ensures ParseFace([]) == Some([])
  {}

  lemma {:induction false} ParsePrintedFaces(f: Floats, m: Mesh, corners: seq<Corner>)
    ensures ParseLines(f, m, FaceLines(corners)) == Some(m.(corners := m.corners + NormalCorners(corners)))
    decreases |corners|
  {
    hide ParseLine, FaceLine;
    if |corners| < 3 {
      assert m.corners + [] == m.corners;
    } else {
      var triangle, rest := corners[..3], corners[3..];
      var next := m.(corners := m.corners + triangle);
      ParsePrintedFace(f, m, corners[0], corners[1], corners[2]);
      assert triangle == [corners[0], corners[1], corners[2]];
      ParsePrintedFaces(f, next, rest);
      assert next.corners + NormalCorners(rest) == m.corners + (triangle + NormalCorners(rest));
      assert FaceLines(corners)[1..] == FaceLines(rest);
    }
  }

  predicate IsComment(line: string) { "#" <= line }

  lemma {:induction false} CommentsAreSkipped(f: Floats, m: Mesh, lines: seq<string>)
    requires forall line | line in lines :: IsComment(line)
    ensures ParseLines(f, m, lines) == Some(m)
    decreases |lines|
  {
    hide ParseLine;
    if lines != [] {
      CommentIsSkipped(f, m, lines[0]);
      CommentsAreSkipped(f, m, lines[1..]);
    }
  }

  lemma CommentIsSkipped(f: Floats, m: Mesh, line: string)
    requires IsComment(line)
    ensures ParseLine(f, m, line) == Some(m)
  {
    assert line[0] == '#' && WordLength(line) > 0;
    assert Words(line)[0] == line[..WordLength(line)];
    assert "#" <= Words(line)[0];
  }

  lemma FirstCommentLine()
    ensures IsComment(FirstComment()) && IsLine(FirstComment())
  {
    hide FirstCommentStart, FirstCommentEnd;
    FirstStartLine();
    FirstEndLine();
  }

  lemma FirstStartLine()
    ensures IsComment(FirstCommentStart()) && IsLine(FirstCommentStart())
  {
    assert IsLine("# 3D mesh ");
    assert IsLine("decoded from ");
    assert IsLine(".binobj (source ");
    assert IsLine("of truth; baked ");
    assert IsLine("back");
  }

  lemma FirstEndLine()
    ensures IsLine(FirstCommentEnd())
  {
    assert IsLine(" to .binobj ");
    assert IsLine("at build time).");
  }

  lemma SecondCommentLine()
    ensures IsComment(SecondComment()) && IsLine(SecondComment())
  {
    hide SecondCommentStart, SecondCommentEnd;
    SecondStartLine();
    SecondEndLine();
  }

  lemma SecondStartLine()
    ensures IsComment(SecondCommentStart()) && IsLine(SecondCommentStart())
  {
    assert IsLine("# UVs are ");
    assert IsLine("stored raw here; ");
    assert IsLine("the V coordinate ");
    assert IsLine("is flipped (1-v)");
  }

  lemma SecondEndLine()
    ensures IsLine(SecondCommentEnd())
  {}
}
