/** What survives a trip through the two mesh tools, in either direction. */
module MeshRoundTrip {
  import opened MeshFormat
  import opened MeshText
  import opened MeshObj
  import opened Options

  /** `binobj2obj.py` */
  function Decode(f: Floats, b: seq<Byte>): Option<string> {
    match ReadMesh(b)
    case None => None
    case Some(m) => Some(PrintMesh(f, m))
  }

  /** `obj2binobj.py` */
  function Encode(f: Floats, text: string): Option<seq<Byte>> {
    match ParseMesh(f, text)
    case None => None
    case Some(m) => Write(m)
  }

  // ----- The text of a mesh is made of lines -----

  lemma JoinedIsLine(words: seq<string>)
    requires AreWords(words)
    ensures IsLine(Joined(words))
  {
    if words != [] {
      assert IsWord(words[0]);
      JoinedIsLine(words[1..]);
    }
  }

  lemma {:induction false} RowsAreLines(f: Floats, t: Table, values: seq<Float>)
    requires Faithful(f)
    ensures AreLines(Rows(f, t, values))
    decreases |values|
  {
    hide Joined, IsLine, Formats, Faithful, IsWord, Tag;
    if |values| >= Width(t) {
      var row := values[..Width(t)];
      FormatsAreWords(f, row);
      TagIsWord(t);
      JoinedIsLine([Tag(t)] + Formats(f, row));
      RowsAreLines(f, t, values[Width(t)..]);
    }
  }

  lemma FaceIsLine(a: Corner, b: Corner, c: Corner)
    ensures IsLine(FaceLine(a, b, c))
  {
    hide Joined, Vertex, ParseVertex, IsWord;
    FaceTagIsWord();
    VertexIsWord(a);
    VertexIsWord(b);
    VertexIsWord(c);
    JoinedIsLine(["f", Vertex(a), Vertex(b), Vertex(c)]);
  }

  lemma {:induction false} FacesAreLines(corners: seq<Corner>)
    ensures AreLines(FaceLines(corners))
    decreases |corners|
  {
    hide FaceLine, IsLine;
    if |corners| >= 3 {
      FaceIsLine(corners[0], corners[1], corners[2]);
      FacesAreLines(corners[3..]);
    }
  }

  lemma MeshLinesAreLines(f: Floats, m: Mesh)
    requires Faithful(f)
    ensures AreLines(MeshLines(f, m))
  {
    hide Rows, FaceLines, FirstComment, SecondComment, IsLine, Faithful;
    FirstCommentLine();
    SecondCommentLine();
    RowsAreLines(f, Positions, m.positions);
    RowsAreLines(f, Uvs, m.uvs);
    RowsAreLines(f, Normals, m.normals);
    FacesAreLines(m.corners);
  }

  // ----- From a mesh through its text -----

  lemma ParseMeshLines(f: Floats, m: Mesh)
    requires Faithful(f)
    ensures ParseLines(f, EMPTY, MeshLines(f, m)) == Some(Normal(m))
  {
    hide ParseLines, Rows, FaceLines, FirstComment, SecondComment, NormalRows, NormalCorners, Faithful, IsComment;
    var v, vt, vn, faces :=
      Rows(f, Positions, m.positions), Rows(f, Uvs, m.uvs), Rows(f, Normals, m.normals), FaceLines(m.corners);
    var m1 := Add(EMPTY, Positions, NormalRows(Positions, m.positions));
    var m2 := Add(m1, Uvs, NormalRows(Uvs, m.uvs));
    var m3 := Add(m2, Normals, NormalRows(Normals, m.normals));
    FirstCommentLine();
    SecondCommentLine();
    CommentsAreSkipped(f, EMPTY, [FirstComment(), SecondComment()]);
    ParseLinesAppend(f, EMPTY, [FirstComment(), SecondComment()], v + (vt + (vn + faces)));
    ParsePrintedRows(f, EMPTY, Positions, m.positions);
    ParseLinesAppend(f, EMPTY, v, vt + (vn + faces));
    ParsePrintedRows(f, m1, Uvs, m.uvs);
    ParseLinesAppend(f, m1, vt, vn + faces);
    ParsePrintedRows(f, m2, Normals, m.normals);
    ParseLinesAppend(f, m2, vn, faces);
    ParsePrintedFaces(f, m3, m.corners);
    assert [] + NormalRows(Positions, m.positions) == NormalRows(Positions, m.positions);
    assert [] + NormalRows(Uvs, m.uvs) == NormalRows(Uvs, m.uvs);
    assert [] + NormalRows(Normals, m.normals) == NormalRows(Normals, m.normals);
    assert [] + NormalCorners(m.corners) == NormalCorners(m.corners);
  }

  /** The text of a mesh parses to its whole rows and triangles, with every NaN the canonical one. */
  lemma ParsePrinted(f: Floats, m: Mesh)
    requires Faithful(f)
    ensures ParseMesh(f, PrintMesh(f, m)) == Some(Normal(m))
  {
    hide MeshLines, Lines, Printed, ParseLines, Normal, Faithful, AreLines;
    MeshLinesAreLines(f, m);
    LinesOfPrinted(MeshLines(f, m));
    ParseMeshLines(f, m);
  }

  // ----- When nothing is lost -----

  lemma {:induction false} CanonicalsSame(values: seq<Float>)
    ensures Canonicals(values) == values <==> AllCanonical(values)
    ensures AllCanonical(Canonicals(values))
  {
    if values != [] {
      CanonicalsSame(values[1..]);
      assert values == [values[0]] + values[1..];
      assert Canonicals(values)[1..] == Canonicals(values[1..]);
    }
  }

  predicate WholeRows(t: Table, n: nat) { if t == Uvs then n % 2 == 0 else n % 3 == 0 }

  /** How many values of whole rows there are among n */
  function Whole(t: Table, n: nat): nat { if t == Uvs then n - n % 2 else n - n % 3 }

  lemma WholeStep(t: Table, n: nat)
    ensures n < Width(t) ==> Whole(t, n) == 0
    ensures n >= Width(t) ==> Whole(t, n) == Width(t) + Whole(t, n - Width(t))
    ensures n >= Width(t) && WholeRows(t, n) ==> WholeRows(t, n - Width(t))
    ensures WholeRows(t, Whole(t, n)) && (Whole(t, n) == n <==> WholeRows(t, n))
  {}

  lemma {:induction false} NormalRowsLength(t: Table, values: seq<Float>)
    ensures |NormalRows(t, values)| == Whole(t, |values|)
    decreases |values|
  {
    hide Canonicals, Whole;
    WholeStep(t, |values|);
    if |values| >= Width(t) {
      NormalRowsLength(t, values[Width(t)..]);
      assert Canonicals(values[..Width(t)]) + NormalRows(t, values[Width(t)..]) == NormalRows(t, values);
    }
  }

  lemma {:induction false} NormalRowsCanonical(t: Table, values: seq<Float>)
    ensures AllCanonical(NormalRows(t, values))
    decreases |values|
  {
    hide Canonicals, Canonical;
    if |values| >= Width(t) {
      CanonicalsSame(values[..Width(t)]);
      NormalRowsCanonical(t, values[Width(t)..]);
    }
  }

  lemma {:induction false} NormalRowsKeep(t: Table, values: seq<Float>)
    requires WholeRows(t, |values|) && AllCanonical(values)
    ensures NormalRows(t, values) == values
    decreases |values|
  {
    hide Canonicals, Canonical;
    if |values| >= Width(t) {
      var row, rest := values[..Width(t)], values[Width(t)..];
      CanonicalsSame(row);
      WholeStep(t, |values|);
      NormalRowsKeep(t, rest);
      assert values == row + rest;
    }
  }

  lemma NormalRowsSame(t: Table, values: seq<Float>)
    ensures NormalRows(t, values) == values <==> WholeRows(t, |values|) && AllCanonical(values)
    ensures WholeRows(t, |NormalRows(t, values)|) && |NormalRows(t, values)| <= |values|
    ensures AllCanonical(NormalRows(t, values))
  {
    hide NormalRows, AllCanonical, WholeRows;
    NormalRowsLength(t, values);
    WholeStep(t, |values|);
    NormalRowsCanonical(t, values);
    if WholeRows(t, |values|) && AllCanonical(values) {
      NormalRowsKeep(t, values);
    }
  }

  lemma {:induction false} NormalCornersSame(corners: seq<Corner>)
    ensures NormalCorners(corners) == corners <==> |corners| % 3 == 0
    ensures |NormalCorners(corners)| % 3 == 0 && |NormalCorners(corners)| <= |corners|
    ensures CornersFit(corners) ==> CornersFit(NormalCorners(corners))
    decreases |corners|
  {
    if |corners| >= 3 {
      NormalCornersSame(corners[3..]);
      assert corners == corners[..3] + corners[3..];
      FitsInParts(corners, 3);
      FitsTogether(corners[..3], NormalCorners(corners[3..]));
      assert NormalCorners(corners)[3..] == NormalCorners(corners[3..]);
    }
  }

  lemma {:induction false} FitsInParts(corners: seq<Corner>, n: nat)
    requires n <= |corners|
    ensures CornersFit(corners) ==> CornersFit(corners[..n]) && CornersFit(corners[n..])
  {
    if n > 0 {
      FitsInParts(corners[1..], n - 1);
      assert corners[..n][1..] == corners[1..][..n - 1];
    }
  }

  lemma {:induction false} FitsTogether(a: seq<Corner>, b: seq<Corner>)
    ensures CornersFit(a) && CornersFit(b) ==> CornersFit(a + b)
  {
    if a == [] {
      assert a + b == b;
    } else {
      FitsTogether(a[1..], b);
      assert (a + b)[1..] == a[1..] + b;
    }
  }

  /** A mesh survives its text exactly when its tables have whole rows and triangles and no other NaN than one. */
  lemma NormalSame(m: Mesh)
    ensures Normal(m) == m <==> Shaped(m) && CanonicalMesh(m)
    ensures Shaped(Normal(m)) && CanonicalMesh(Normal(m))
    ensures Writable(m) ==> Writable(Normal(m))
  {
    hide NormalRows, NormalCorners, CornersFit, AllCanonical;
    NormalRowsSame(Positions, m.positions);
    NormalRowsSame(Uvs, m.uvs);
    NormalRowsSame(Normals, m.normals);
    NormalCornersSame(m.corners);
  }

  // ----- The round trips -----

  /**
   * Decoding an accepted file to text and encoding the text always works, and gives back the
   * identical bytes if and only if the tables have whole rows and triangles and every NaN is canonical.
   */
  lemma DecodeThenEncode(f: Floats, b: seq<Byte>)
    requires Faithful(f) && ReadMesh(b).Some?
    ensures var m := ReadMesh(b).value;
            && Decode(f, b).Some?
            && Encode(f, Decode(f, b).value) == Write(Normal(m)) && Write(Normal(m)).Some?
            && (Encode(f, Decode(f, b).value) == Some(b) <==> Shaped(m) && CanonicalMesh(m))
  {
    hide ReadMesh, PrintMesh, ParseMesh, Writable, Normal, Shaped, CanonicalMesh, Faithful;
    var m := ReadMesh(b).value;
    ParsePrinted(f, m);
    WriteRead(b);
    NormalSame(m);
    if Write(Normal(m)) == Some(b) {
      ReadWritten(Normal(m));
    }
  }

  /** Parsing gives whole rows, and whole triangles for polygons of any size. */
  lemma {:induction false} ParsedIsShaped(f: Floats, m: Mesh, lines: seq<string>)
    requires Shaped(m) && ParseLines(f, m, lines).Some?
    ensures Shaped(ParseLines(f, m, lines).value)
    decreases |lines|
  {
    hide ParseLine, Shaped;
    if lines != [] {
      ParsedLineIsShaped(f, m, lines[0]);
      ParsedIsShaped(f, ParseLine(f, m, lines[0]).value, lines[1..]);
    }
  }

  lemma ParsedLineIsShaped(f: Floats, m: Mesh, line: string)
    requires Shaped(m) && ParseLine(f, m, line).Some?
    ensures Shaped(ParseLine(f, m, line).value)
  {
    hide Words, ParseFloats, ParseFace, FanTo;
    var words := Words(line);
    if words != [] {
      ParsedRowWidth(f, words[1..], 2);
      ParsedRowWidth(f, words[1..], 3);
      if ParseFace(words[1..]).Some? && ParseFace(words[1..]).value != [] {
        FanTriangles(ParseFace(words[1..]).value, |ParseFace(words[1..]).value| - 1);
      }
    }
  }

  lemma {:induction false} ParsedRowWidth(f: Floats, words: seq<string>, count: nat)
    ensures ParseFloats(f, words, count).Some? ==> |ParseFloats(f, words, count).value| == count
    decreases count
  {
    if count > 0 && words != [] {
      ParsedRowWidth(f, words[1..], count - 1);
    }
  }

  /**
   * For every text that can be encoded, with polygons of any size and fields left out: decoding the file and
   * encoding again works, and it gives the same file if and only if the text names no other NaN than the canonical one.
   */
  lemma EncodeDecodeEncode(f: Floats, text: string)
    requires Faithful(f) && Encode(f, text).Some?
    ensures var b := Encode(f, text).value;
            && Decode(f, b).Some? && Encode(f, Decode(f, b).value).Some?
            && (Encode(f, Decode(f, b).value) == Some(b) <==> CanonicalMesh(ParseMesh(f, text).value))
  {
    hide Write, ReadMesh, PrintMesh, Lines, ParseLines, Shaped, CanonicalMesh, Faithful, Decode;
    var m := ParseMesh(f, text).value;
    EmptyIsShaped();
    ParsedIsShaped(f, EMPTY, Lines(text));
    ReadWritten(m);
    DecodeThenEncode(f, Write(m).value);
  }

  lemma EmptyIsShaped()
    ensures Shaped(EMPTY)
  {}

  /** One trip settles everything: a second one changes no byte. */
  lemma SecondTripIsStable(f: Floats, b: seq<Byte>)
    requires Faithful(f) && ReadMesh(b).Some?
    ensures Decode(f, b).Some? && Encode(f, Decode(f, b).value).Some?
    ensures var once := Encode(f, Decode(f, b).value).value;
            ReadMesh(once).Some? && Decode(f, once).Some? && Encode(f, Decode(f, once).value) == Some(once)
  {
    hide Write, ReadMesh, Normal, Shaped, CanonicalMesh, Faithful, Encode, Decode;
    var m := ReadMesh(b).value;
    DecodeThenEncode(f, b);
    ReadWritten(Normal(m));
    NormalSame(m);
    DecodeThenEncode(f, Encode(f, Decode(f, b).value).value);
  }

  /** A negative NaN in the text is such a case: its sign does not survive the printed "nan". */
  lemma NegativeNaNIsLost(f: Floats)
    requires Faithful(f) && f.parse("-nan") == Some(0xFFC0_0000)
    ensures var text := Joined(["vt", "-nan", "-nan"]);
            && Encode(f, text).Some?
            && Decode(f, Encode(f, text).value).Some?
            && Encode(f, Decode(f, Encode(f, text).value).value) != Encode(f, text)
  {
    hide Joined, ParseMesh, Decode, Faithful;
    var text := Joined(["vt", "-nan", "-nan"]);
    NegativeNaNParses(f);
    var m := ParseMesh(f, text).value;
    EncodeDecodeEncode(f, text);
    assert m.uvs[0] in m.uvs && Canonical(m.uvs[0]) == NAN;
  }

  /** A file with a single value in its table of positions is another one: the value is in no row of the text. */
  lemma IncompleteRowIsLost(f: Floats)
    requires Faithful(f)
    ensures var m := Mesh([0], [], [], []);
            && Write(m).Some? && Decode(f, Write(m).value).Some?
            && Encode(f, Decode(f, Write(m).value).value) == Write(EMPTY) != Write(m)
  {
    hide ReadMesh, Decode, Encode, Faithful, CanonicalMesh, Normal, Counted, WordBytes, CornersBytes;
    var m := Mesh([0], [], [], []);
    assert Write(m).Some? && Write(EMPTY).Some?;
    ReadWritten(m);
    ReadWritten(EMPTY);
    DecodeThenEncode(f, Write(m).value);
    assert !Shaped(m);
    OneValueIsNoRow(m);
  }

  lemma OneValueIsNoRow(m: Mesh)
    requires m == Mesh([0], [], [], [])
    ensures Normal(m) == EMPTY
  {}

  lemma NegativeNaNParses(f: Floats)
    requires f.parse("-nan") == Some(0xFFC0_0000)
    ensures ParseMesh(f, Joined(["vt", "-nan", "-nan"])) == Some(Mesh([], [0xFFC0_0000, 0xFFC0_0000], [], []))
  {
    hide Words, Joined, Lines, IsLine, ParseFloats;
    var words := ["vt", "-nan", "-nan"];
    assert AreWords(words);
    WordsOfJoined(words);
    JoinedIsLine(words);
    OneLine(Joined(words));
    assert words[1..] == ["-nan", "-nan"];
    TwoFloats(f, "-nan");
    var m := Mesh([], [0xFFC0_0000, 0xFFC0_0000], [], []);
    assert [] + m.uvs == m.uvs;
    assert words[0][0] == 'v' && words[0][1] == 't';
    assert ParseLine(f, EMPTY, Joined(words)) == Some(m);
    assert [Joined(words)][1..] == [];
    assert ParseLines(f, m, []) == Some(m);
    assert ParseLines(f, EMPTY, [Joined(words)]) == Some(m);
  }

  lemma OneLine(line: string)
    requires IsLine(line) && Words(line) != []
    ensures Lines(line) == [line]
  {
    LineLengthIs(line, |line|);
    assert line[..|line|] == line;
  }

  lemma TwoFloats(f: Floats, word: string)
    requires f.parse(word).Some?
    ensures ParseFloats(f, [word, word], 2) == Some([f.parse(word).value, f.parse(word).value])
  {
    var x := f.parse(word).value;
    assert [word, word][1..] == [word] && [word][1..] == [];
    assert ParseFloats(f, [], 0) == Some([]);
    assert ParseFloats(f, [word], 1) == Some([x] + []);
    assert [x] + [] == [x] && [x] + [x] == [x, x];
  }

  // ----- There are such number formats -----

  function FormatBits(x: Float): string { if IsNaN(x) then "nan" else Natural(x) }

  function ParseBits(s: string): Option<Float> {
    if s == "nan" then Some(NAN)
    else if s == "-nan" then Some(0xFFC0_0000)
    else match ParseNatural(s)
      case None => None
      case Some(n) => if n < 0x1_0000_0000 then Some(n) else None
  }

  /** A format that meets both assumptions on floats: the bits in decimal. */
  lemma BitsAreFaithful()
    ensures Faithful(Floats(FormatBits, ParseBits)) && ParseBits("-nan") == Some(0xFFC0_0000)
  {
    hide Natural, ParseNatural;
    forall x: Float
      ensures IsWord(FormatBits(x)) && ParseBits(FormatBits(x)) == Some(Canonical(x))
    {
      NaturalDigits(x);
      ParseNaturalOfNatural(x);
      assert Natural(x)[0] in Natural(x);
      assert "nan"[0] == 'n' && "-nan"[0] == '-';
    }
    assert "-nan"[0] != "nan"[0];
  }
}
