/** The .binobj format: four counted tables of big-endian 32-bit values. */
module MeshFormat {
  import opened Options

  type Byte = n: nat | n < 0x100

  /** The bits of a 32-bit float */
  type Float = n: nat | n < 0x1_0000_0000

  datatype Corner = Corner(position: int, uv: int, normal: int)

  datatype Mesh = Mesh(positions: seq<Float>, uvs: seq<Float>, normals: seq<Float>, corners: seq<Corner>)

  /** A parsed value and the bytes behind it */
  datatype Read<T> = Failed | Got(value: T, rest: seq<Byte>)

  predicate IsInt32(v: int) { -0x8000_0000 <= v < 0x8000_0000 }

  // ----- Words of four bytes -----

  function WordBytes(w: Float): (b: seq<Byte>)
    ensures |b| == 4
  {
    [w / 0x100_0000, w / 0x1_0000 % 0x100, w / 0x100 % 0x100, w % 0x100]
  }

  function WordOf(b: seq<Byte>): Float
    requires |b| >= 4
  {
    var b0: int, b1: int, b2: int, b3: int := b[0], b[1], b[2], b[3];
    0x100_0000 * b0 + 0x1_0000 * b1 + 0x100 * b2 + b3
  }

  lemma WordOfBytes(w: Float, rest: seq<Byte>)
    ensures WordOf(WordBytes(w) + rest) == w
  {
    var b := WordBytes(w) + rest;
    var q1, q2, q3 := w / 0x100, w / 0x1_0000, w / 0x100_0000;
    assert q2 == q1 / 0x100 && q3 == q2 / 0x100;
    assert w == 0x100 * q1 + w % 0x100;
    assert q1 == 0x100 * q2 + q1 % 0x100;
    assert q2 == 0x100 * q3 + q2 % 0x100;
  }

  lemma BytesOfWord(b: seq<Byte>)
    requires |b| >= 4
    ensures WordBytes(WordOf(b)) == b[..4]
  {
    DigitsOfWord(b[0], b[1], b[2], b[3]);
  }

  lemma DigitsOfWord(b0: int, b1: int, b2: int, b3: int)
    requires 0 <= b0 && 0 <= b1 < 0x100 && 0 <= b2 < 0x100 && 0 <= b3 < 0x100
    ensures var w := 0x100_0000 * b0 + 0x1_0000 * b1 + 0x100 * b2 + b3;
            && w / 0x100_0000 == b0 && w / 0x1_0000 % 0x100 == b1 && w / 0x100 % 0x100 == b2 && w % 0x100 == b3
  {
    var w := 0x100_0000 * b0 + 0x1_0000 * b1 + 0x100 * b2 + b3;
    assert w / 0x100 == 0x1_0000 * b0 + 0x100 * b1 + b2;
    assert w / 0x1_0000 == 0x100 * b0 + b1;
  }

  /** `struct.pack('>i', v)` and `struct.unpack_from('>i', …)`: two's complement */
  function Unsigned(v: int): Float
    requires IsInt32(v)
  {
    if v < 0 then v + 0x1_0000_0000 else v
  }

  function Signed(w: Float): (v: int)
    ensures IsInt32(v) && Unsigned(v) == w
  {
    if w >= 0x8000_0000 then w - 0x1_0000_0000 else w
  }

  // ----- Writing -----

  function FloatsBytes(values: seq<Float>): (b: seq<Byte>)
    ensures |b| == 4 * |values|
  {
    if values == [] then [] else WordBytes(values[0]) + FloatsBytes(values[1..])
  }

  predicate CornerFits(c: Corner) { IsInt32(c.position) && IsInt32(c.uv) && IsInt32(c.normal) }

  function CornerBytes(c: Corner): (b: seq<Byte>)
    requires CornerFits(c)
    ensures |b| == 12
  {
    WordBytes(Unsigned(c.position)) + WordBytes(Unsigned(c.uv)) + WordBytes(Unsigned(c.normal))
  }

  predicate CornersFit(corners: seq<Corner>) {
    corners == [] || (CornerFits(corners[0]) && CornersFit(corners[1..]))
  }

  function CornersBytes(corners: seq<Corner>): (b: seq<Byte>)
    requires CornersFit(corners)
    ensures |b| == 12 * |corners|
  {
    if corners == [] then [] else CornerBytes(corners[0]) + CornersBytes(corners[1..])
  }

  /** What `struct.pack` can pack: 32-bit counts and indices */
  predicate Writable(m: Mesh) {
    && IsInt32(|m.positions|) && IsInt32(|m.uvs|) && IsInt32(|m.normals|) && IsInt32(|m.corners|)
    && CornersFit(m.corners)
  }

  function Counted(values: seq<Float>): seq<Byte>
    requires IsInt32(|values|)
  {
    WordBytes(Unsigned(|values|)) + FloatsBytes(values)
  }

  function Write(m: Mesh): Option<seq<Byte>> {
    if !Writable(m) then None
    else Some(Counted(m.positions) + (Counted(m.uvs) + (Counted(m.normals)
              + (WordBytes(Unsigned(|m.corners|)) + CornersBytes(m.corners)))))
  }

  // ----- Reading -----

  function ReadInt(b: seq<Byte>): Read<int> {
    if |b| < 4 then Failed else Got(Signed(WordOf(b)), b[4..])
  }

  function ReadFloats(b: seq<Byte>, count: nat): Read<seq<Float>>
    decreases count
  {
    if count == 0 then Got([], b)
    else if |b| < 4 then Failed
    else match ReadFloats(b[4..], count - 1)
      case Failed => Failed
      case Got(values, rest) => Got([WordOf(b)] + values, rest)
  }

  /** `read_floats(read_int())`; a negative count is no format. */
  function ReadCounted(b: seq<Byte>): Read<seq<Float>> {
    match ReadInt(b)
    case Failed => Failed
    case Got(count, rest) => if count < 0 then Failed else ReadFloats(rest, count)
  }

  function ReadCorner(b: seq<Byte>): Corner
    requires |b| >= 12
  {
    Corner(Signed(WordOf(b)), Signed(WordOf(b[4..])), Signed(WordOf(b[8..])))
  }

  function ReadCorners(b: seq<Byte>, count: nat): Read<seq<Corner>>
    decreases count
  {
    if count == 0 then Got([], b)
    else if |b| < 12 then Failed
    else match ReadCorners(b[12..], count - 1)
      case Failed => Failed
      case Got(corners, rest) => Got([ReadCorner(b)] + corners, rest)
  }

  /** A negative corner count moves the offset back, so that the final check of the length always fails. */
  function ReadCountedCorners(b: seq<Byte>): Read<seq<Corner>> {
    match ReadInt(b)
    case Failed => Failed
    case Got(count, rest) => if count < 0 then Failed else ReadCorners(rest, count)
  }

  function ReadMesh(b: seq<Byte>): Option<Mesh> {
    match ReadCounted(b)
    case Failed => None
    case Got(positions, b1) =>
    match ReadCounted(b1)
    case Failed => None
    case Got(uvs, b2) =>
    match ReadCounted(b2)
    case Failed => None
    case Got(normals, b3) =>
    match ReadCountedCorners(b3)
    case Failed => None
    case Got(corners, b4) => if b4 == [] then Some(Mesh(positions, uvs, normals, corners)) else None
  }

  // ----- Reading what was written -----

  lemma ReadIntBytes(v: int, rest: seq<Byte>)
    requires IsInt32(v)
    ensures ReadInt(WordBytes(Unsigned(v)) + rest) == Got(v, rest)
  {
    WordOfBytes(Unsigned(v), rest);
  }

  lemma {:induction false} ReadFloatsBytes(values: seq<Float>, rest: seq<Byte>)
    ensures ReadFloats(FloatsBytes(values) + rest, |values|) == Got(values, rest)
  {
    hide WordOf, WordBytes;
    if values == [] {
      assert FloatsBytes(values) + rest == rest;
    } else {
      var behind := FloatsBytes(values[1..]) + rest;
      assert FloatsBytes(values) + rest == WordBytes(values[0]) + behind;
      WordOfBytes(values[0], behind);
      ReadFloatsBytes(values[1..], rest);
      assert (WordBytes(values[0]) + behind)[4..] == behind;
      assert [values[0]] + values[1..] == values;
    }
  }

  lemma ReadCountedBytes(values: seq<Float>, rest: seq<Byte>)
    requires IsInt32(|values|)
    ensures ReadCounted(Counted(values) + rest) == Got(values, rest)
  {
    hide ReadInt, WordBytes;
    assert Counted(values) + rest == WordBytes(Unsigned(|values|)) + (FloatsBytes(values) + rest);
    ReadIntBytes(|values|, FloatsBytes(values) + rest);
    ReadFloatsBytes(values, rest);
  }

  lemma ReadCornerBytes(c: Corner, rest: seq<Byte>)
    requires CornerFits(c)
    ensures ReadCorner(CornerBytes(c) + rest) == c
  {
    hide WordOf, WordBytes;
    var p, u, n := WordBytes(Unsigned(c.position)), WordBytes(Unsigned(c.uv)), WordBytes(Unsigned(c.normal));
    var b := CornerBytes(c) + rest;
    assert b == p + (u + n + rest) && b[4..] == u + (n + rest) && b[8..] == n + rest;
    WordOfBytes(Unsigned(c.position), u + n + rest);
    WordOfBytes(Unsigned(c.uv), n + rest);
    WordOfBytes(Unsigned(c.normal), rest);
  }

  lemma {:induction false} ReadCornersBytes(corners: seq<Corner>, rest: seq<Byte>)
    requires CornersFit(corners)
    ensures ReadCorners(CornersBytes(corners) + rest, |corners|) == Got(corners, rest)
  {
    hide ReadCorner, CornerBytes;
    if corners == [] {
      assert CornersBytes(corners) + rest == rest;
    } else {
      var behind := CornersBytes(corners[1..]) + rest;
      assert CornersBytes(corners) + rest == CornerBytes(corners[0]) + behind;
      ReadCornerBytes(corners[0], behind);
      ReadCornersBytes(corners[1..], rest);
      assert (CornerBytes(corners[0]) + behind)[12..] == behind;
      assert [corners[0]] + corners[1..] == corners;
    }
  }

  /** Reading back what was written gives the same mesh. */
  lemma ReadWritten(m: Mesh)
    requires Write(m).Some?
    ensures ReadMesh(Write(m).value) == Some(m)
  {
    hide ReadInt, WordBytes, Counted, ReadCounted, ReadCorners, CornersBytes;
    var c0 := WordBytes(Unsigned(|m.corners|)) + CornersBytes(m.corners);
    ReadCountedBytes(m.positions, Counted(m.uvs) + (Counted(m.normals) + c0));
    ReadCountedBytes(m.uvs, Counted(m.normals) + c0);
    ReadCountedBytes(m.normals, c0);
    ReadIntBytes(|m.corners|, CornersBytes(m.corners));
    assert CornersBytes(m.corners) + [] == CornersBytes(m.corners);
    ReadCornersBytes(m.corners, []);
  }

  // ----- Writing what was read -----

  lemma {:induction false} FloatsReadBytes(b: seq<Byte>, count: nat)
    requires ReadFloats(b, count).Got?
    ensures var got := ReadFloats(b, count);
            |got.value| == count && b == FloatsBytes(got.value) + got.rest
    decreases count
  {
    hide WordOf, WordBytes;
    if count > 0 {
      BytesOfWord(b);
      FloatsReadBytes(b[4..], count - 1);
      assert b == b[..4] + b[4..];
    }
  }

  lemma IntReadBytes(b: seq<Byte>)
    requires |b| >= 4
    ensures b == WordBytes(Unsigned(ReadInt(b).value)) + ReadInt(b).rest
  {
    BytesOfWord(b);
    assert b == b[..4] + b[4..];
  }

  lemma CountedReadBytes(b: seq<Byte>)
    requires ReadCounted(b).Got?
    ensures var got := ReadCounted(b);
            IsInt32(|got.value|) && b == Counted(got.value) + got.rest
  {
    hide WordOf, WordBytes;
    IntReadBytes(b);
    FloatsReadBytes(ReadInt(b).rest, ReadInt(b).value);
  }

  lemma CornerReadBytes(b: seq<Byte>)
    requires |b| >= 12
    ensures CornerFits(ReadCorner(b)) && CornerBytes(ReadCorner(b)) == b[..12]
  {
    hide WordOf, WordBytes;
    BytesOfWord(b);
    BytesOfWord(b[4..]);
    BytesOfWord(b[8..]);
    assert b[..12] == b[..4] + b[4..][..4] + b[8..][..4];
  }

  lemma {:induction false} CornersReadBytes(b: seq<Byte>, count: nat)
    requires ReadCorners(b, count).Got?
    ensures var got := ReadCorners(b, count);
            |got.value| == count && CornersFit(got.value) && b == CornersBytes(got.value) + got.rest
    decreases count
  {
    hide ReadCorner, CornerBytes, CornerFits;
    if count > 0 {
      CornerReadBytes(b);
      CornersReadBytes(b[12..], count - 1);
      assert b == b[..12] + b[12..];
    }
  }

  /** Writing back what was read gives the same bytes: there is one file for a mesh. */
  lemma WriteRead(b: seq<Byte>)
    requires ReadMesh(b).Some?
    ensures Write(ReadMesh(b).value) == Some(b)
  {
    hide ReadInt, WordBytes, Counted, ReadCounted, ReadCorners, CornersBytes;
    var g1 := ReadCounted(b);
    CountedReadBytes(b);
    var g2 := ReadCounted(g1.rest);
    CountedReadBytes(g1.rest);
    var g3 := ReadCounted(g2.rest);
    CountedReadBytes(g2.rest);
    ReadIntGot(g3.rest);
    var count := ReadInt(g3.rest);
    CornersReadBytes(count.rest, count.value);
    var g4 := ReadCorners(count.rest, count.value);
    assert CornersBytes(g4.value) + [] == CornersBytes(g4.value);
  }

  lemma ReadIntGot(b: seq<Byte>)
    requires ReadInt(b).Got?
    ensures IsInt32(ReadInt(b).value) && b == WordBytes(Unsigned(ReadInt(b).value)) + ReadInt(b).rest
  {
    IntReadBytes(b);
  }

  /** The two programs agree on which bytes stand for which mesh. */
  lemma ReadIffWritten(b: seq<Byte>, m: Mesh)
    ensures ReadMesh(b) == Some(m) <==> Write(m) == Some(b)
  {
    hide ReadMesh, Write;
    if ReadMesh(b) == Some(m) {
      WriteRead(b);
    }
    if Write(m) == Some(b) {
      ReadWritten(m);
    }
  }

  // ----- The layout, told by offsets -----

  /** The most significant byte comes first: bytes compare as the numbers do. */
  lemma BytesOrderAsNumbers(w: Float, v: Float)
    ensures w < v <==> exists k :: 0 <= k < 4 && WordBytes(w)[..k] == WordBytes(v)[..k] && WordBytes(w)[k] < WordBytes(v)[k]
  {
    var a, b := WordBytes(w), WordBytes(v);
    WordOfBytes(w, []);
    WordOfBytes(v, []);
    assert a + [] == a && b + [] == b;
    hide WordBytes;
    if a[0] != b[0] {
      assert a[..0] == b[..0];
      DiffersAt(a, b, 0);
    } else if a[1] != b[1] {
      assert a[..1] == b[..1];
      DiffersAt(a, b, 1);
    } else if a[2] != b[2] {
      assert a[..2] == b[..2];
      DiffersAt(a, b, 2);
    } else if a[3] != b[3] {
      assert a[..3] == b[..3];
      DiffersAt(a, b, 3);
    } else {
      assert a == b;
    }
  }

  lemma DiffersAt(a: seq<Byte>, b: seq<Byte>, k: nat)
    requires |a| == 4 && |b| == 4 && k < 4 && a[..k] == b[..k] && a[k] != b[k]
    ensures WordOf(a) < WordOf(b) <==> a[k] < b[k]
    ensures forall j | 0 <= j < 4 && a[..j] == b[..j] && a[j] != b[j] :: j == k
  {
    assert forall j | 0 <= j < k :: a[j] == a[..k][j] == b[..k][j] == b[j];
    assert forall j | k < j < 4 :: a[..j][k] == a[k] && b[..j][k] == b[k];
  }

  lemma {:induction false} FloatAt(values: seq<Float>, i: nat)
    requires i < |values|
    ensures FloatsBytes(values)[4 * i..4 * i + 4] == WordBytes(values[i])
  {
    hide WordBytes;
    if i > 0 {
      FloatAt(values[1..], i - 1);
      assert FloatsBytes(values)[4 * i..4 * i + 4] == FloatsBytes(values[1..])[4 * (i - 1)..4 * (i - 1) + 4];
    }
  }

  lemma {:induction false} CornerAt(corners: seq<Corner>, i: nat)
    requires CornersFit(corners) && i < |corners|
    ensures CornerFits(corners[i]) && CornersBytes(corners)[12 * i..12 * i + 12] == CornerBytes(corners[i])
  {
    hide CornerBytes, CornerFits;
    if i > 0 {
      CornerAt(corners[1..], i - 1);
      assert CornersBytes(corners)[12 * i..12 * i + 12] == CornersBytes(corners[1..])[12 * (i - 1)..12 * (i - 1) + 12];
    }
  }

  /** A word of a file */
  predicate HasWord(b: seq<Byte>, offset: nat, value: int) {
    offset + 4 <= |b| && IsInt32(value) && b[offset..offset + 4] == WordBytes(Unsigned(value))
  }

  /** A table lies at an offset: its length, and its values one by one. */
  predicate HasTable(b: seq<Byte>, offset: nat, values: seq<Float>) {
    && HasWord(b, offset, |values|) && offset + 4 + 4 * |values| <= |b|
    && forall i | 0 <= i < |values| :: b[offset + 4 + 4 * i..offset + 8 + 4 * i] == WordBytes(values[i])
  }

  lemma CountedIsTable(front: seq<Byte>, values: seq<Float>, rest: seq<Byte>)
    requires IsInt32(|values|)
    ensures HasTable(front + (Counted(values) + rest), |front|, values)
  {
    hide WordBytes, FloatsBytes;
    var b := front + (Counted(values) + rest);
    var count := WordBytes(Unsigned(|values|));
    assert b == front + count + FloatsBytes(values) + rest;
    assert b[|front|..|front| + 4] == count;
    forall i | 0 <= i < |values|
      ensures b[|front| + 4 + 4 * i..|front| + 8 + 4 * i] == WordBytes(values[i])
    {
      FloatAt(values, i);
      assert b[|front| + 4 + 4 * i..|front| + 8 + 4 * i] == FloatsBytes(values)[4 * i..4 * i + 4];
    }
  }

  /** The corners behind their count, three words each */
  predicate HasCorners(b: seq<Byte>, offset: nat, corners: seq<Corner>) {
    && HasWord(b, offset, |corners|)
    && forall i | 0 <= i < |corners| ::
         && HasWord(b, offset + 4 + 12 * i, corners[i].position)
         && HasWord(b, offset + 8 + 12 * i, corners[i].uv)
         && HasWord(b, offset + 12 + 12 * i, corners[i].normal)
  }

  lemma CornersBehindCount(front: seq<Byte>, corners: seq<Corner>)
    requires IsInt32(|corners|) && CornersFit(corners)
    ensures HasCorners(front + (WordBytes(Unsigned(|corners|)) + CornersBytes(corners)), |front|, corners)
  {
    hide WordBytes, CornersBytes, CornersFit;
    var count, c := WordBytes(Unsigned(|corners|)), CornersBytes(corners);
    var b := front + (count + c);
    assert b[|front|..|front| + 4] == count;
    forall i | 0 <= i < |corners|
      ensures HasWord(b, |front| + 4 + 12 * i, corners[i].position)
      ensures HasWord(b, |front| + 8 + 12 * i, corners[i].uv)
      ensures HasWord(b, |front| + 12 + 12 * i, corners[i].normal)
    {
      CornerAt(corners, i);
      assert b[|front| + 4 + 12 * i..|front| + 16 + 12 * i] == c[12 * i..12 * i + 12];
      CornerWords(b, |front| + 4 + 12 * i, corners[i]);
    }
  }

  lemma CornerWords(b: seq<Byte>, offset: nat, c: Corner)
    requires CornerFits(c) && offset + 12 <= |b| && b[offset..offset + 12] == CornerBytes(c)
    ensures HasWord(b, offset, c.position) && HasWord(b, offset + 4, c.uv) && HasWord(b, offset + 8, c.normal)
  {
    hide WordBytes;
    var w := CornerBytes(c);
    assert w[..4] == WordBytes(Unsigned(c.position));
    assert w[4..8] == WordBytes(Unsigned(c.uv));
    assert w[8..12] == WordBytes(Unsigned(c.normal));
    PartOfPart(b, offset, 12, 0, 4);
    PartOfPart(b, offset, 12, 4, 8);
    PartOfPart(b, offset, 12, 8, 12);
  }

  lemma PartOfPart(b: seq<Byte>, offset: nat, length: nat, from: nat, to: nat)
    requires offset + length <= |b| && from <= to <= length
    ensures b[offset..offset + length][from..to] == b[offset + from..offset + to]
  {
    var part := b[offset..offset + length];
    assert forall k | from <= k < to :: part[k] == b[offset + k];
  }

  /** The file as its description tells it: positions, uvs, normals and corners, at these offsets, and nothing else. */
  lemma Layout(m: Mesh)
    requires Write(m).Some?
    ensures var b := Write(m).value;
            var uvs := 4 + 4 * |m.positions|;
            var normals := uvs + 4 + 4 * |m.uvs|;
            var corners := normals + 4 + 4 * |m.normals|;
            && HasTable(b, 0, m.positions) && HasTable(b, uvs, m.uvs) && HasTable(b, normals, m.normals)
            && HasCorners(b, corners, m.corners) && |b| == corners + 4 + 12 * |m.corners|
  {
    hide WordBytes, HasTable, HasCorners, FloatsBytes, CornersBytes, CornersFit;
    var p, u, n := Counted(m.positions), Counted(m.uvs), Counted(m.normals);
    var c := WordBytes(Unsigned(|m.corners|)) + CornersBytes(m.corners);
    var b := Write(m).value;
    CountedIsTable([], m.positions, u + (n + c));
    CountedIsTable(p, m.uvs, n + c);
    CountedIsTable(p + u, m.normals, c);
    CornersBehindCount(p + u + n, m.corners);
    assert [] + (p + (u + (n + c))) == b && p + (u + (n + c)) == b;
    assert p + u + (n + c) == b && p + u + n + c == b;
  }
}
