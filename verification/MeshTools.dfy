/** The two mesh tools as they run: a reader with a running offset, and the loops that parse, triangulate, print and pack. */
module MeshTools {
  import opened MeshFormat
  import opened MeshText
  import opened MeshObj
  import opened MeshRoundTrip
  import opened Options

  // ----- Counts -----

  lemma {:induction false} ReadFloatsFails(b: seq<Byte>, count: nat)
    ensures ReadFloats(b, count).Failed? <==> |b| < 4 * count
    decreases count
  {
    hide WordOf;
    if count > 0 && |b| >= 4 {
      ReadFloatsFails(b[4..], count - 1);
    }
  }

  lemma {:induction false} ReadCornersLeaves(b: seq<Byte>, count: nat)
    ensures ReadCorners(b, count).Failed? <==> |b| < 12 * count
    ensures ReadCorners(b, count).Got? ==> ReadCorners(b, count).rest == b[12 * count..]
    decreases count
  {
    hide ReadCorner;
    if count > 0 && |b| >= 12 {
      ReadCornersLeaves(b[12..], count - 1);
    }
  }

  /** `binobj2obj.py` reads `data` through `offset`. */
  class Reader {
    const data: seq<Byte>
    var offset: int

    constructor (data: seq<Byte>)
      ensures this.data == data && offset == 0
    {
      this.data, offset := data, 0;
    }

    ghost predicate Valid()
      reads this
    {
      0 <= offset <= |data|
    }

    method ReadInt() returns (value: Option<int>)
      requires Valid()
      modifies this`offset
      ensures Valid()
      ensures match MeshFormat.ReadInt(data[old(offset)..])
              case Failed => value == None
              case Got(v, rest) => value == Some(v) && data[offset..] == rest
    {
      if offset + 4 > |data| {
        return None;
      }
      value := Some(Signed(WordOf(data[offset..])));
      offset := offset + 4;
    }

    method ReadFloats(count: int) returns (values: Option<seq<Float>>)
      requires Valid()
      modifies this`offset
      ensures Valid()
      ensures match if count < 0 then Failed else MeshFormat.ReadFloats(data[old(offset)..], count)
              case Failed => values == None
              case Got(v, rest) => values == Some(v) && data[offset..] == rest
    {
      hide WordOf;
      if count < 0 {
        return None;
      }
      ReadFloatsFails(data[offset..], count);
      if offset + 4 * count > |data| {
        return None;
      }
      var floats: seq<Float> := [];
      ghost var all := MeshFormat.ReadFloats(data[offset..], count);
      assert floats + all.value == all.value;
      for i := 0 to count
        invariant |data[offset..]| >= 4 * count
        invariant MeshFormat.ReadFloats(data[offset + 4 * i..], count - i).Got?
        invariant var left := MeshFormat.ReadFloats(data[offset + 4 * i..], count - i);
                  all == Got(floats + left.value, left.rest)
      {
        assert data[offset + 4 * i..][4..] == data[offset + 4 * (i + 1)..];
        ghost var behind := MeshFormat.ReadFloats(data[offset + 4 * (i + 1)..], count - (i + 1)).value;
        var x := WordOf(data[offset + 4 * i..]);
        assert floats + ([x] + behind) == floats + [x] + behind;
        floats := floats + [x];
      }
      offset := offset + 4 * count;
      assert floats + [] == floats;
      values := Some(floats);
    }

    /** `read_floats(read_int())` */
    method ReadTable() returns (values: Option<seq<Float>>)
      requires Valid()
      modifies this`offset
      ensures Valid()
      ensures match ReadCounted(data[old(offset)..])
              case Failed => values == None
              case Got(v, rest) => values == Some(v) && data[offset..] == rest
    {
      hide WordOf, MeshFormat.ReadFloats, MeshFormat.ReadInt;
      var count := ReadInt();
      if count.None? {
        return None;
      }
      values := ReadFloats(count.value);
    }

    /** The corners; the offset is moved by any count, and a negative one moves it back. */
    method ReadCorners() returns (corners: Option<seq<Corner>>)
      requires Valid()
      modifies this`offset
      ensures match ReadCountedCorners(data[old(offset)..])
              case Failed => corners.None? || offset < |data|
              case Got(c, rest) => corners == Some(c) && Valid() && data[offset..] == rest
    {
      hide ReadCorner;
      var count := ReadInt();
      if count.None? {
        return None;
      }
      if count.value < 0 {
        offset := offset + 12 * count.value;
        return Some([]);
      }
      ReadCornersLeaves(data[offset..], count.value);
      corners := ReadCornerList(count.value);
      if corners.Some? {
        offset := offset + 12 * count.value;
      }
    }

    /** The list of corners; the offset does not move meanwhile. */
    method ReadCornerList(count: nat) returns (corners: Option<seq<Corner>>)
      requires Valid()
      ensures corners == match MeshFormat.ReadCorners(data[offset..], count) case Failed => None case Got(c, _) => Some(c)
    {
      hide ReadCorner, MeshFormat.ReadCorners, Continues;
      var read: seq<Corner> := [];
      ghost var all := MeshFormat.ReadCorners(data[offset..], count);
      CornersBegin(data, offset, count);
      for i := 0 to count
        invariant offset + 12 * i <= |data| && Continues(data, offset + 12 * i, count - i, read, all)
      {
        CornersStep(data, offset + 12 * i, count - i, read, all);
        if offset + 12 * (i + 1) > |data| {
          return None;
        }
        read := read + [ReadCorner(data[offset + 12 * i..])];
      }
      CornersEnd(data, offset + 12 * count, read, all);
      corners := Some(read);
    }
  }

  /** Reading the rest at the offset completes what was read so far to all that is read. */
  predicate Continues(data: seq<Byte>, offset: nat, count: nat, read: seq<Corner>, all: Read<seq<Corner>>)
    requires offset <= |data|
  {
    match ReadCorners(data[offset..], count)
    case Failed => all.Failed?
    case Got(c, rest) => all == Got(read + c, rest)
  }

  lemma CornersBegin(data: seq<Byte>, offset: nat, count: nat)
    requires offset <= |data|
    ensures Continues(data, offset, count, [], ReadCorners(data[offset..], count))
  {
    hide ReadCorners;
    var all := ReadCorners(data[offset..], count);
    assert all.Got? ==> [] + all.value == all.value;
  }

  lemma CornersStep(data: seq<Byte>, offset: nat, count: nat, read: seq<Corner>, all: Read<seq<Corner>>)
    requires offset <= |data| && count > 0 && Continues(data, offset, count, read, all)
    ensures offset + 12 > |data| ==> all.Failed?
    ensures offset + 12 <= |data|
        ==> Continues(data, offset + 12, count - 1, read + [ReadCorner(data[offset..])], all)
  {
    hide ReadCorner;
    if offset + 12 <= |data| {
      assert data[offset..][12..] == data[offset + 12..];
      var behind, c := ReadCorners(data[offset + 12..], count - 1), ReadCorner(data[offset..]);
      assert behind.Got? ==> read + ([c] + behind.value) == read + [c] + behind.value;
    }
  }

  lemma CornersEnd(data: seq<Byte>, offset: nat, read: seq<Corner>, all: Read<seq<Corner>>)
    requires offset <= |data| && Continues(data, offset, 0, read, all)
    ensures all == Got(read, data[offset..])
  {
    assert read + [] == read;
  }

  // ----- Printing -----

  lemma JoinedThree(a: string, b: string, c: string)
    ensures Joined([a, b, c]) == a + " " + (b + " " + c)
  {
    hide Joined;
    assert [a] + [b, c] == [a, b, c] && [b] + [c] == [b, c];
    JoinedMore(a, [b, c]);
    JoinedMore(b, [c]);
    JoinedOne(c);
  }

  lemma JoinedFour(a: string, b: string, c: string, d: string)
    ensures Joined([a, b, c, d]) == a + " " + (b + " " + (c + " " + d))
  {
    hide Joined;
    assert [a] + [b, c, d] == [a, b, c, d];
    JoinedMore(a, [b, c, d]);
    JoinedThree(b, c, d);
  }

  lemma RowOfThree(f: Floats, t: Table, x: Float, y: Float, z: Float)
    ensures Row(f, t, [x, y, z]) == Tag(t) + " " + (f.format(x) + " " + (f.format(y) + " " + f.format(z)))
  {
    hide Joined, Formats;
    FormatsOf(f, x, [y, z]);
    FormatsOf(f, y, [z]);
    FormatsOf(f, z, []);
    FormatsOfNothing(f);
    assert [x] + [y, z] == [x, y, z] && [y] + [z] == [y, z] && [z] + [] == [z];
    assert Formats(f, [x, y, z]) == [f.format(x), f.format(y), f.format(z)];
    JoinedFour(Tag(t), f.format(x), f.format(y), f.format(z));
    assert [Tag(t)] + [f.format(x), f.format(y), f.format(z)] == [Tag(t), f.format(x), f.format(y), f.format(z)];
  }

  lemma RowOfTwo(f: Floats, t: Table, x: Float, y: Float)
    ensures Row(f, t, [x, y]) == Tag(t) + " " + (f.format(x) + " " + f.format(y))
  {
    hide Joined, Formats;
    FormatsOf(f, x, [y]);
    FormatsOf(f, y, []);
    FormatsOfNothing(f);
    assert [x] + [y] == [x, y] && [y] + [] == [y];
    assert Formats(f, [x, y]) == [f.format(x), f.format(y)];
    JoinedThree(Tag(t), f.format(x), f.format(y));
    assert [Tag(t)] + [f.format(x), f.format(y)] == [Tag(t), f.format(x), f.format(y)];
  }

  lemma FormatsOfNothing(f: Floats)
    ensures Formats(f, []) == []
  {}

  lemma FormatsOf(f: Floats, x: Float, rest: seq<Float>)
    ensures Formats(f, [x] + rest) == [f.format(x)] + Formats(f, rest)
  {
    assert ([x] + rest)[1..] == rest;
  }

  lemma JoinedMore(word: string, words: seq<string>)
    requires words != []
    ensures Joined([word] + words) == word + " " + Joined(words)
  {
    assert ([word] + words)[1..] == words;
  }

  lemma JoinedOne(word: string)
    ensures Joined([word]) == word
  {}

  lemma PrintedMore(line: string, lines: seq<string>)
    ensures Printed([line] + lines) == line + "\n" + Printed(lines)
  {
    assert ([line] + lines)[1..] == lines;
  }

  lemma {:induction false} PrintedAppend(front: seq<string>, back: seq<string>)
    ensures Printed(front + back) == Printed(front) + Printed(back)
  {
    if front == [] {
      assert front + back == back;
    } else {
      assert (front + back)[1..] == front[1..] + back;
      PrintedAppend(front[1..], back);
    }
  }

  /** The loops over `len(positions) // 3` and `len(normals) // 3` */
  method WriteTriples(f: Floats, t: Table, values: seq<Float>, before: string) returns (out: string)
    requires t != Uvs
    ensures out == before + Printed(Rows(f, t, values))
  {
    hide Row, Printed;
    out := before;
    assert values[3 * 0..] == values;
    for i := 0 to |values| / 3
      invariant out + Printed(Rows(f, t, values[3 * i..])) == before + Printed(Rows(f, t, values))
    {
      var x, y, z := values[3 * i], values[3 * i + 1], values[3 * i + 2];
      ghost var left, rest := values[3 * i..], values[3 * (i + 1)..];
      assert left[..3] == [x, y, z] && left[3..] == rest;
      RowOfThree(f, t, x, y, z);
      PrintedMore(Row(f, t, [x, y, z]), Rows(f, t, rest));
      var line := Tag(t) + " " + (f.format(x) + " " + (f.format(y) + " " + f.format(z)));
      assert out + (line + "\n" + Printed(Rows(f, t, rest))) == out + line + "\n" + Printed(Rows(f, t, rest));
      out := out + line + "\n";
    }
    PrintedNothing();
  }

  lemma PrintedNothing()
    ensures Printed([]) == ""
  {}

  /** The loop over `len(uvs) // 2` */
  method WritePairs(f: Floats, values: seq<Float>, before: string) returns (out: string)
    ensures out == before + Printed(Rows(f, Uvs, values))
  {
    hide Row, Printed;
    out := before;
    assert values[2 * 0..] == values;
    for i := 0 to |values| / 2
      invariant out + Printed(Rows(f, Uvs, values[2 * i..])) == before + Printed(Rows(f, Uvs, values))
    {
      var x, y := values[2 * i], values[2 * i + 1];
      ghost var left, rest := values[2 * i..], values[2 * (i + 1)..];
      assert left[..2] == [x, y] && left[2..] == rest;
      RowOfTwo(f, Uvs, x, y);
      PrintedMore(Row(f, Uvs, [x, y]), Rows(f, Uvs, rest));
      var line := Tag(Uvs) + " " + (f.format(x) + " " + f.format(y));
      assert out + (line + "\n" + Printed(Rows(f, Uvs, rest))) == out + line + "\n" + Printed(Rows(f, Uvs, rest));
      out := out + line + "\n";
    }
    PrintedNothing();
  }

  /** The loop over `corner_count // 3` */
  method WriteFaces(corners: seq<Corner>, before: string) returns (out: string)
    ensures out == before + Printed(FaceLines(corners))
  {
    hide Joined, Printed, Vertex;
    out := before;
    assert corners[3 * 0..] == corners;
    for i := 0 to |corners| / 3
      invariant out + Printed(FaceLines(corners[3 * i..])) == before + Printed(FaceLines(corners))
    {
      var a, b, c := corners[3 * i], corners[3 * i + 1], corners[3 * i + 2];
      ghost var left, rest := corners[3 * i..], corners[3 * (i + 1)..];
      assert left[..3] == [a, b, c] && left[3..] == rest;
      JoinedFour("f", Vertex(a), Vertex(b), Vertex(c));
      PrintedMore(FaceLine(a, b, c), FaceLines(rest));
      var line := "f" + " " + (Vertex(a) + " " + (Vertex(b) + " " + Vertex(c)));
      assert out + (line + "\n" + Printed(FaceLines(rest))) == out + line + "\n" + Printed(FaceLines(rest));
      out := out + line + "\n";
    }
    PrintedNothing();
  }

  method WriteObj(f: Floats, m: Mesh) returns (out: string)
    ensures out == PrintMesh(f, m)
  {
    hide Rows, FaceLines, Printed, FirstComment, SecondComment;
    var v, vt, vn, faces :=
      Rows(f, Positions, m.positions), Rows(f, Uvs, m.uvs), Rows(f, Normals, m.normals), FaceLines(m.corners);
    out := FirstComment() + "\n" + (SecondComment() + "\n");
    PrintedMore(FirstComment(), [SecondComment()]);
    PrintedMore(SecondComment(), []);
    PrintedNothing();
    assert [FirstComment()] + [SecondComment()] == [FirstComment(), SecondComment()];
    assert [SecondComment()] + [] == [SecondComment()];
    PrintedAppend([FirstComment(), SecondComment()], v + (vt + (vn + faces)));
    PrintedAppend(v, vt + (vn + faces));
    PrintedAppend(vt, vn + faces);
    PrintedAppend(vn, faces);
    out := WriteTriples(f, Positions, m.positions, out);
    out := WritePairs(f, m.uvs, out);
    out := WriteTriples(f, Normals, m.normals, out);
    out := WriteFaces(m.corners, out);
  }

  /** `binobj2obj.py` on the bytes of a file: the text, or nothing when it stops with an error */
  method DecodeFile(f: Floats, data: seq<Byte>) returns (text: Option<string>)
    ensures text == Decode(f, data)
  {
    hide ReadCounted, ReadCountedCorners, PrintMesh;
    var reader := new Reader(data);
    assert data[0..] == data;
    var positions := reader.ReadTable();
    if positions.None? {
      return None;
    }
    var uvs := reader.ReadTable();
    if uvs.None? {
      return None;
    }
    var normals := reader.ReadTable();
    if normals.None? {
      return None;
    }
    var corners := reader.ReadCorners();
    if corners.None? || reader.offset != |data| {
      return None;
    }
    var out := WriteObj(f, Mesh(positions.value, uvs.value, normals.value, corners.value));
    text := Some(out);
  }

  // ----- Parsing -----

  /** The vertices of an `f` line */
  method ReadFace(words: seq<string>) returns (face: Option<seq<Corner>>)
    ensures face == ParseFace(words)
  {
    hide ParseVertex;
    var corners: seq<Corner> := [];
    assert words[0..] == words && ParseFace(words).Some? ==> corners + ParseFace(words).value == ParseFace(words).value;
    for i := 0 to |words|
      invariant match ParseFace(words[i..])
                case None => ParseFace(words) == None
                case Some(rest) => ParseFace(words) == Some(corners + rest)
    {
      assert words[i..][1..] == words[i + 1..];
      var corner := ParseVertex(words[i]);
      if corner.None? {
        return None;
      }
      ghost var rest := ParseFace(words[i + 1..]);
      assert rest.Some? ==> corners + ([corner.value] + rest.value) == corners + [corner.value] + rest.value;
      corners := corners + [corner.value];
    }
    assert words[|words|..] == [] && corners + [] == corners;
    face := Some(corners);
  }

  /** All triangles of a face start at its first corner; a triangle stays what it is. */
  method Triangulate(face: seq<Corner>, corners: seq<Corner>) returns (out: seq<Corner>)
    ensures out == corners + Fan(face)
  {
    out := corners;
    if |face| >= 2 {
      for i := 1 to |face| - 1
        invariant out == corners + FanTo(face, i)
      {
        out := out + [face[0], face[i], face[i + 1]];
      }
    }
  }

  method ReadLine(f: Floats, m: Mesh, line: string) returns (next: Option<Mesh>)
    ensures next == ParseLine(f, m, line)
  {
    hide Words, ParseRow, ParseFace, Fan;
    var parts := Words(line);
    if parts == [] || "#" <= parts[0] {
      return Some(m);
    }
    var tag := parts[0];
    if tag == "v" {
      next := ParseRow(f, m, Positions, parts[1..]);
    } else if tag == "vt" {
      next := ParseRow(f, m, Uvs, parts[1..]);
    } else if tag == "vn" {
      next := ParseRow(f, m, Normals, parts[1..]);
    } else if tag == "f" {
      var face := ReadFace(parts[1..]);
      if face.None? {
        return None;
      }
      var corners := Triangulate(face.value, m.corners);
      next := Some(m.(corners := corners));
    } else {
      next := Some(m);
    }
  }

  method ReadObj(f: Floats, text: string) returns (mesh: Option<Mesh>)
    ensures mesh == ParseMesh(f, text)
  {
    hide Lines, ParseLine;
    var source, m := Lines(text), EMPTY;
    assert source[0..] == source;
    for i := 0 to |source|
      invariant ParseLines(f, m, source[i..]) == ParseMesh(f, text)
    {
      assert source[i..][1..] == source[i + 1..];
      var next := ReadLine(f, m, source[i]);
      if next.None? {
        return None;
      }
      m := next.value;
    }
    assert source[|source|..] == [];
    mesh := Some(m);
  }

  // ----- Packing -----

  lemma {:induction false} FloatsBytesAppend(a: seq<Float>, b: seq<Float>)
    ensures FloatsBytes(a + b) == FloatsBytes(a) + FloatsBytes(b)
  {
    hide WordBytes;
    if a == [] {
      assert a + b == b;
    } else {
      assert (a + b)[1..] == a[1..] + b;
      FloatsBytesAppend(a[1..], b);
    }
  }

  lemma OneFloatBytes(x: Float)
    ensures FloatsBytes([x]) == WordBytes(x)
  {
    hide WordBytes;
    assert WordBytes(x) + [] == WordBytes(x);
  }

  /** A count and the floats behind it */
  method PackTable(values: seq<Float>, before: seq<Byte>) returns (out: Option<seq<Byte>>)
    ensures out == if IsInt32(|values|) then Some(before + Counted(values)) else None
  {
    hide WordBytes;
    if |values| >= 0x8000_0000 {
      return None;
    }
    var packed := WordBytes(Unsigned(|values|));
    ghost var count := packed;
    for i := 0 to |values|
      invariant packed == count + FloatsBytes(values[..i])
    {
      assert values[..i + 1] == values[..i] + [values[i]];
      FloatsBytesAppend(values[..i], [values[i]]);
      OneFloatBytes(values[i]);
      packed := packed + WordBytes(values[i]);
    }
    assert values[..|values|] == values;
    out := Some(before + packed);
  }

  lemma {:induction false} CornersBytesAppend(a: seq<Corner>, c: Corner)
    requires CornersFit(a) && CornerFits(c)
    ensures CornersFit(a + [c]) && CornersBytes(a + [c]) == CornersBytes(a) + CornerBytes(c)
  {
    hide CornerBytes, CornerFits;
    if a == [] {
      assert a + [c] == [c] && [c][1..] == [];
      assert CornerBytes(c) + [] == CornerBytes(c);
    } else {
      assert (a + [c])[1..] == a[1..] + [c];
      CornersBytesAppend(a[1..], c);
    }
  }

  lemma {:induction false} MisfitAnywhere(corners: seq<Corner>, i: nat)
    requires i < |corners| && !CornerFits(corners[i])
    ensures !CornersFit(corners)
  {
    if i > 0 {
      MisfitAnywhere(corners[1..], i - 1);
    }
  }

  method PackCorners(corners: seq<Corner>, before: seq<Byte>) returns (out: Option<seq<Byte>>)
    ensures out == if IsInt32(|corners|) && CornersFit(corners)
                   then Some(before + (WordBytes(Unsigned(|corners|)) + CornersBytes(corners))) else None
  {
    hide WordBytes, CornerBytes, CornerFits, CornersBytes;
    if |corners| >= 0x8000_0000 {
      return None;
    }
    var packed := WordBytes(Unsigned(|corners|));
    ghost var count := packed;
    NoCorners();
    for i := 0 to |corners|
      invariant CornersFit(corners[..i]) && packed == count + CornersBytes(corners[..i])
    {
      if !CornerFits(corners[i]) {
        MisfitAnywhere(corners, i);
        return None;
      }
      assert corners[..i + 1] == corners[..i] + [corners[i]];
      CornersBytesAppend(corners[..i], corners[i]);
      packed := packed + CornerBytes(corners[i]);
    }
    assert corners[..|corners|] == corners;
    out := Some(before + packed);
  }

  lemma NoCorners()
    ensures CornersFit([]) && CornersBytes([]) == []
  {}

  method PackMesh(m: Mesh) returns (out: Option<seq<Byte>>)
    ensures out == Write(m)
  {
    hide Counted, WordBytes, CornersBytes, CornersFit;
    var v := PackTable(m.positions, []);
    if v.None? {
      return None;
    }
    var vt := PackTable(m.uvs, v.value);
    if vt.None? {
      return None;
    }
    var vn := PackTable(m.normals, vt.value);
    if vn.None? {
      return None;
    }
    out := PackCorners(m.corners, vn.value);
    if out.Some? {
      var a, b, c, d := Counted(m.positions), Counted(m.uvs), Counted(m.normals),
                        WordBytes(Unsigned(|m.corners|)) + CornersBytes(m.corners);
      assert [] + a + b + c + d == a + (b + (c + d));
    }
  }

  /** `obj2binobj.py` on a text: the bytes, or nothing when it stops with an error */
  method EncodeText(f: Floats, text: string) returns (data: Option<seq<Byte>>)
    ensures data == Encode(f, text)
  {
    hide Write, ParseMesh;
    var mesh := ReadObj(f, text);
    if mesh.None? {
      return None;
    }
    data := PackMesh(mesh.value);
  }
}
