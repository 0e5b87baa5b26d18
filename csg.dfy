/** The collision geometry of the emitter: every mesh part that a solid
    instance uses becomes a "CSGPHS" version-3 blob holding one 148-byte
    record per triangle (the triangle and a copy of it pushed 1/8 of a unit
    back along the vertex normals, as a two-sided sliver). The blob is
    stored Base64-encoded; its key is the Base64 text of the MD5 digest of
    that encoding. Blobs are built once per part object, and the shared
    string table lists each distinct key once. */
module Csg {
  import opened Types
  import opened Dedup
  import opened Bytes
  import opened Salvl
  import MeshFile
  import Base64
  import Placement

  /** "CSGPHS" */
  const Magic: seq<byte> := [0x43, 0x53, 0x47, 0x50, 0x48, 0x53]

  /** The magic followed by the version word 3. */
  const Head: seq<byte> := [0x43, 0x53, 0x47, 0x50, 0x48, 0x53, 3, 0, 0, 0]

  /** A word below 256 is written as itself and three zero bytes. */
  lemma Le32Small(x: Word)
    requires x < 0x100
    ensures Le32(x) == [x, 0, 0, 0]
  {
    LeUnfolded(x);
  }

  /** n zero bytes. */
  function Zeros(n: nat): (r: seq<byte>)
    ensures |r| == n && forall k :: 0 <= k < n ==> r[k] == 0
  {
    seq(n, _ => 0)
  }

  /** The fixed start of a triangle record, in three parts:
      sizeof_TriIndices 16 and sixteen zero bytes; sizeof_TransformOffsets
      16, fourteen zero bytes and 0x80 0x3F (the four floats 0, 0, 0, 1.0f);
      numCoords 18 and sizeof_float 4. */
  const TriIndicesPart: seq<byte> := [16, 0, 0, 0, 0, 0, 0, 0, 0, 0, 0, 0, 0, 0, 0, 0, 0, 0, 0, 0]
  const TransformPart: seq<byte> := [16, 0, 0, 0, 0, 0, 0, 0, 0, 0, 0, 0, 0, 0, 0, 0, 0, 0, 0x80, 0x3F]
  const CountsPart: seq<byte> := [18, 0, 0, 0, 4, 0, 0, 0]
  const Prelude: seq<byte> := TriIndicesPart + TransformPart + CountsPart

  /** The fixed end of a triangle record: numIndices 6, then the front
      triangle 0, 1, 2 and the back triangle 5, 4, 3. */
  const FrontPart: seq<byte> := [6, 0, 0, 0, 0, 0, 0, 0, 1, 0, 0, 0, 2, 0, 0, 0]
  const BackPart: seq<byte> := [5, 0, 0, 0, 4, 0, 0, 0, 3, 0, 0, 0]
  const Closing: seq<byte> := FrontPart + BackPart

  /** The vertex indices the record's two triangles use. */
  const Corners: seq<int> := [0, 1, 2, 5, 4, 3]

  /** A vertex pushed back 0.125 along its normal. */
  function Inset(v: Vertex): Vec3
  {
    Vec3(v.pos.x - Mul(v.nor.x, 0.125), v.pos.y - Mul(v.nor.y, 0.125), v.pos.z - Mul(v.nor.z, 0.125))
  }

  /** The six points of a triangle record: the triangle, then its inset copy. */
  function Points(v0: Vertex, v1: Vertex, v2: Vertex): (ps: seq<Vec3>)
    ensures |ps| == 6
  {
    [v0.pos, v1.pos, v2.pos, Inset(v0), Inset(v1), Inset(v2)]
  }

  /** The float words of the points 0 .. k-1. */
  function PointWords(ps: seq<Vec3>, bits: real -> Word, k: nat): (r: seq<byte>)
    requires k <= |ps|
    ensures |r| == 12 * k
  {
    if k == 0 then [] else PointWords(ps, bits, k - 1) + MeshFile.Vec3Words(ps[k - 1], bits)
  }

  /** One 148-byte triangle record. */
  function TriRecord(v0: Vertex, v1: Vertex, v2: Vertex, bits: real -> Word): (r: seq<byte>)
    ensures |r| == 148
  {
    var ps := Points(v0, v1, v2);
    Prelude + PointWords(ps, bits, |ps|) + Closing
  }

  /** The part's index list is whole triangles of existing vertices. */
  predicate IndicesOk(vs: seq<Vertex>, ix: seq<int>)
  {
    |ix| % 3 == 0 && forall k :: 0 <= k < |ix| ==> 0 <= ix[k] < |vs|
  }

  /** The records of the triangles 0 .. t-1. */
  function Tris(vs: seq<Vertex>, ix: seq<int>, bits: real -> Word, t: nat): (r: seq<byte>)
    requires IndicesOk(vs, ix) && 3 * t <= |ix|
    ensures |r| == 148 * t
  {
    if t == 0 then []
    else Tris(vs, ix, bits, t - 1) + TriRecord(vs[ix[3 * t - 3]], vs[ix[3 * t - 2]], vs[ix[3 * t - 1]], bits)
  }

  /** The whole blob of a part. */
  function Blob(vs: seq<Vertex>, ix: seq<int>, bits: real -> Word): seq<byte>
    requires IndicesOk(vs, ix)
  {
    Head + Tris(vs, ix, bits, |ix| / 3)
  }

  /** Word k of four-byte words at offset `at`. */
  function WordAt(b: seq<byte>, at: nat): Word
    requires at + 4 <= |b|
  {
    Read32(b[at .. at + 4])
  }

  /** The prelude reads back as the sizes 16, 16, 18 and 4, sixteen zero
      index bytes and the transform words 0, 0, 0, 0x3F800000 (1.0f). */
  lemma PreludeFields()
    ensures |Prelude| == 48
    ensures WordAt(Prelude, 0) == 16 && Prelude[4..20] == Zeros(16) && WordAt(Prelude, 20) == 16
    ensures WordAt(Prelude, 24) == 0 && WordAt(Prelude, 28) == 0 && WordAt(Prelude, 32) == 0
    ensures WordAt(Prelude, 36) == 0x3F80_0000
    ensures WordAt(Prelude, 40) == 18 && WordAt(Prelude, 44) == 4
  {
    assert Prelude[4..20] == TriIndicesPart[4..20];
    assert Prelude[20..24] == TransformPart[0..4];
    assert Prelude[36..40] == TransformPart[16..20];
    assert Prelude[40..44] == CountsPart[0..4];
    assert Prelude[44..48] == CountsPart[4..8];
  }

  /** The closing words read back as the count 6 and then the corner list. */
  lemma ClosingFields()
    ensures |Closing| == 28 && WordAt(Closing, 0) == 6
    ensures forall k :: 0 <= k < 6 ==> WordAt(Closing, 4 + 4 * k) == Corners[k]
  {
    assert Closing[0..4] == FrontPart[0..4];
    assert Closing[4..8] == FrontPart[4..8];
    assert Closing[8..12] == FrontPart[8..12];
    assert Closing[12..16] == FrontPart[12..16];
    assert Closing[16..20] == BackPart[0..4];
    assert Closing[20..24] == BackPart[4..8];
    assert Closing[24..28] == BackPart[8..12];
    var w := [WordAt(Closing, 4), WordAt(Closing, 8), WordAt(Closing, 12),
              WordAt(Closing, 16), WordAt(Closing, 20), WordAt(Closing, 24)];
    assert w == Corners;
    forall k | 0 <= k < 6
      ensures WordAt(Closing, 4 + 4 * k) == Corners[k]
    {
      assert WordAt(Closing, 4 + 4 * k) == w[k];
    }
  }

  /** The two triangles of a record share no orientation: the back one lists
      the inset copies of the front corners in reverse order. */
  lemma CornersTwoSided()
    ensures Corners[3] == Corners[2] + 3 && Corners[4] == Corners[1] + 3 && Corners[5] == Corners[0] + 3
  {
  }

  /** Coordinate `axis` of point j sits at word 3j + axis of the point words. */
  lemma {:induction false} PointWordsAt(ps: seq<Vec3>, bits: real -> Word, k: nat, j: nat, axis: nat)
    requires j < k <= |ps| && axis < 3
    ensures WordAt(PointWords(ps, bits, k), 12 * j + 4 * axis) == bits(Coord(ps[j], axis))
  {
    var last := MeshFile.Vec3Words(ps[k - 1], bits);
    MeshFile.SliceOfAppend(PointWords(ps, bits, k - 1), last, 12 * j + 4 * axis, 12 * j + 4 * axis + 4);
    if j < k - 1 {
      PointWordsAt(ps, bits, k - 1, j, axis);
    } else {
      var w := bits(Coord(ps[j], axis));
      if axis == 0 {
        assert last[0..4] == Le32(w);
      } else if axis == 1 {
        assert last[4..8] == Le32(w);
      } else {
        assert last[8..12] == Le32(w);
      }
      Le32RoundTrip(w, Le32(w));
    }
  }

  /** A triangle record reads back: its prelude and closing are the fixed
      ones, word 12 + 3j + axis is coordinate `axis` of point j (the three
      corners, then their inset copies), and word 31 + k is corner k of the
      two triangles. */
  lemma TriRecordFields(v0: Vertex, v1: Vertex, v2: Vertex, bits: real -> Word)
    ensures TriRecord(v0, v1, v2, bits)[..48] == Prelude
    ensures TriRecord(v0, v1, v2, bits)[120..] == Closing
    ensures forall j, axis :: 0 <= j < 6 && 0 <= axis < 3 ==>
              WordAt(TriRecord(v0, v1, v2, bits), 48 + 12 * j + 4 * axis) == bits(Coord(Points(v0, v1, v2)[j], axis))
    ensures forall k :: 0 <= k < 6 ==> WordAt(TriRecord(v0, v1, v2, bits), 124 + 4 * k) == Corners[k]
  {
    var ps := Points(v0, v1, v2);
    var pw := PointWords(ps, bits, |ps|);
    var r := TriRecord(v0, v1, v2, bits);
    assert r == Prelude + pw + Closing;
    PreludeFields();
    Ends(Prelude, pw, Closing);
    forall j, axis | 0 <= j < 6 && 0 <= axis < 3
      ensures WordAt(r, 48 + 12 * j + 4 * axis) == bits(Coord(ps[j], axis))
    {
      PointWordsAt(ps, bits, |ps|, j, axis);
      WordInMiddle(Prelude, pw, Closing, 12 * j + 4 * axis);
    }
    ClosingFields();
    forall k | 0 <= k < 6
      ensures WordAt(r, 124 + 4 * k) == Corners[k]
    {
      WordInMiddle(Prelude + pw, Closing, [], 4 + 4 * k);
      assert Prelude + pw + Closing + [] == r;
    }
  }

  /** The two ends of a three-piece concatenation. */
  lemma Ends<T>(a: seq<T>, b: seq<T>, c: seq<T>)
    ensures (a + b + c)[..|a|] == a && (a + b + c)[|a| + |b|..] == c
  {
  }

  /** A word inside the middle piece reads the same in the whole. */
  lemma WordInMiddle(a: seq<byte>, b: seq<byte>, c: seq<byte>, at: nat)
    requires at + 4 <= |b|
    ensures WordAt(a + b + c, |a| + at) == WordAt(b, at)
  {
    assert (a + b + c)[|a| + at .. |a| + at + 4] == b[at .. at + 4];
  }

  /** Triangle s sits at byte 148s of the records of the first t triangles. */
  lemma {:induction false} TrisAt(vs: seq<Vertex>, ix: seq<int>, bits: real -> Word, t: nat, s: nat)
    requires IndicesOk(vs, ix) && s < t && 3 * t <= |ix|
    ensures Tris(vs, ix, bits, t)[148 * s .. 148 * s + 148] ==
            TriRecord(vs[ix[3 * s]], vs[ix[3 * s + 1]], vs[ix[3 * s + 2]], bits)
  {
    var last := TriRecord(vs[ix[3 * t - 3]], vs[ix[3 * t - 2]], vs[ix[3 * t - 1]], bits);
    MeshFile.SliceOfAppend(Tris(vs, ix, bits, t - 1), last, 148 * s, 148 * s + 148);
    if s < t - 1 {
      TrisAt(vs, ix, bits, t - 1, s);
    }
  }

  /** One more triangle appends its record. */
  lemma TrisNext(vs: seq<Vertex>, ix: seq<int>, bits: real -> Word, t: nat)
    requires IndicesOk(vs, ix) && 3 * t + 3 <= |ix|
    ensures Tris(vs, ix, bits, t + 1) ==
            Tris(vs, ix, bits, t) + TriRecord(vs[ix[3 * t]], vs[ix[3 * t + 1]], vs[ix[3 * t + 2]], bits)
  {
  }

  /** A whole index list is |ix| / 3 triangles. */
  lemma Thirds(n: nat)
    requires n % 3 == 0
    ensures 3 * (n / 3) == n
  {
  }

  /** The blob is "CSGPHS", version 3 and then one record per triangle: its
      length is 10 + 148 T for T = |ix| / 3 triangles, and triangle s is the
      record of the vertices its three indices name. */
  lemma BlobLayout(vs: seq<Vertex>, ix: seq<int>, bits: real -> Word)
    requires IndicesOk(vs, ix)
    ensures |Blob(vs, ix, bits)| == 10 + 148 * (|ix| / 3)
    ensures Blob(vs, ix, bits)[..6] == Magic && WordAt(Blob(vs, ix, bits), 6) == 3
    ensures forall s :: 0 <= s < |ix| / 3 ==>
              Blob(vs, ix, bits)[10 + 148 * s .. 10 + 148 * s + 148] ==
              TriRecord(vs[ix[3 * s]], vs[ix[3 * s + 1]], vs[ix[3 * s + 2]], bits)
  {
    var b := Blob(vs, ix, bits);
    var ts := Tris(vs, ix, bits, |ix| / 3);
    Thirds(|ix|);
    assert b[6..10] == Le32(3);
    Le32RoundTrip(3, Le32(3));
    forall s | 0 <= s < |ix| / 3
      ensures b[10 + 148 * s .. 10 + 148 * s + 148] == TriRecord(vs[ix[3 * s]], vs[ix[3 * s + 1]], vs[ix[3 * s + 2]], bits)
    {
      TrisAt(vs, ix, bits, |ix| / 3, s);
      assert b[10 + 148 * s .. 10 + 148 * s + 148] == ts[148 * s .. 148 * s + 148];
    }
  }

  /** Three float words of a point, as three PushFloat calls. */
  method PushPoint(out: ByteStream, p: Vec3, bits: real -> Word)
    modifies out
    ensures out.data == old(out.data) + MeshFile.Vec3Words(p, bits)
  {
    out.PushFloat(p.x, bits);
    out.PushFloat(p.y, bits);
    out.PushFloat(p.z, bits);
  }

  /** The words and bytes the writer pushes are the parts' bytes. */
  lemma PartBytes()
    ensures Le32(16) + Zeros(16) == TriIndicesPart
    ensures Le32(16) + Zeros(14) + [0x80, 0x3F] == TransformPart
    ensures Le32(18) + Le32(4) == CountsPart
  {
    Le32Small(16);
    Le32Small(18);
    Le32Small(4);
  }

  /** sizeof_TriIndices and the sixteen index bytes. */
  method PushTriIndices(out: ByteStream)
    modifies out
    ensures out.data == old(out.data) + TriIndicesPart
  {
    PartBytes();
    out.Push32(16);
    out.PutAll(Zeros(16));
  }

  /** sizeof_TransformOffsets and the sixteen transform bytes. */
  method PushTransform(out: ByteStream)
    modifies out
    ensures out.data == old(out.data) + TransformPart
  {
    PartBytes();
    out.Push32(16);
    out.PutAll(Zeros(14));
    out.Put(0x80);
    out.Put(0x3F);
  }

  /** numCoords and sizeof_float. */
  method PushCounts(out: ByteStream)
    modifies out
    ensures out.data == old(out.data) + CountsPart
  {
    PartBytes();
    out.Push32(18);
    out.Push32(4);
  }

  /** The fixed start of a triangle record. */
  method PushPrelude(out: ByteStream)
    modifies out
    ensures out.data == old(out.data) + Prelude
  {
    PushTriIndices(out);
    PushTransform(out);
    PushCounts(out);
  }

  /** Point k of a triangle record, after points 0 .. k-1. */
  method PushNextPoint(out: ByteStream, ghost start: seq<byte>, ghost ps: seq<Vec3>, k: nat, p: Vec3, bits: real -> Word)
    requires k < |ps| && ps[k] == p
    requires out.data == start + PointWords(ps, bits, k)
    modifies out
    ensures out.data == start + PointWords(ps, bits, k + 1)
  {
    PushPoint(out, p, bits);
  }

  /** The six points of a triangle record. */
  method PushPoints(out: ByteStream, v0: Vertex, v1: Vertex, v2: Vertex, bits: real -> Word)
    modifies out
    ensures out.data == old(out.data) + PointWords(Points(v0, v1, v2), bits, 6)
  {
    ghost var ps := Points(v0, v1, v2);
    ghost var start := out.data;
    PushNextPoint(out, start, ps, 0, v0.pos, bits);
    PushNextPoint(out, start, ps, 1, v1.pos, bits);
    PushNextPoint(out, start, ps, 2, v2.pos, bits);
    PushNextPoint(out, start, ps, 3, Inset(v0), bits);
    PushNextPoint(out, start, ps, 4, Inset(v1), bits);
    PushNextPoint(out, start, ps, 5, Inset(v2), bits);
  }

  /** The words of the closing parts. */
  lemma ClosingBytes()
    ensures Le32(6) + Le32(0) + Le32(1) + Le32(2) == FrontPart
    ensures Le32(5) + Le32(4) + Le32(3) == BackPart
  {
    Le32Small(6);
    Le32Small(0);
    Le32Small(1);
    Le32Small(2);
    Le32Small(5);
    Le32Small(4);
    Le32Small(3);
  }

  /** numIndices and the front triangle 0, 1, 2. */
  method PushFront(out: ByteStream)
    modifies out
    ensures out.data == old(out.data) + Le32(6) + Le32(0) + Le32(1) + Le32(2)
  {
    out.Push32(6);
    out.Push32(0);
    out.Push32(1);
    out.Push32(2);
  }

  /** The back triangle 5, 4, 3. */
  method PushBack(out: ByteStream)
    modifies out
    ensures out.data == old(out.data) + Le32(5) + Le32(4) + Le32(3)
  {
    out.Push32(5);
    out.Push32(4);
    out.Push32(3);
  }

  /** The index count and the two triangles of a record. */
  method PushClosing(out: ByteStream)
    modifies out
    ensures out.data == old(out.data) + Closing
  {
    ClosingBytes();
    ghost var start := out.data;
    PushFront(out);
    ghost var half := out.data;
    Regrouped(start, Le32(6), Le32(0), Le32(1), Le32(2));
    PushBack(out);
    Regrouped3(half, Le32(5), Le32(4), Le32(3));
    assert out.data == half + BackPart;
    Extended(start, FrontPart, BackPart, half, out.data);
  }

  /** Appends the record of one triangle. */
  method PushTriangle(out: ByteStream, v0: Vertex, v1: Vertex, v2: Vertex, bits: real -> Word)
    modifies out
    ensures out.data == old(out.data) + TriRecord(v0, v1, v2, bits)
  {
    PushPrelude(out);
    PushPoints(out, v0, v1, v2, bits);
    PushClosing(out);
  }

  /** The magic and the version word. */
  method PushHead(out: ByteStream)
    modifies out
    ensures out.data == old(out.data) + Head
  {
    out.Put(0x43);
    out.Put(0x53);
    out.Put(0x47);
    out.Put(0x50);
    out.Put(0x48);
    out.Put(0x53);
    Le32Small(3);
    out.Push32(3);
  }

  /** Four appends in a row are one append of their concatenation. */
  lemma Regrouped(s: seq<byte>, a: seq<byte>, b: seq<byte>, c: seq<byte>, d: seq<byte>)
    ensures s + a + b + c + d == s + (a + b + c + d)
  {
  }

  /** Three appends in a row are one append of their concatenation. */
  lemma Regrouped3(s: seq<byte>, a: seq<byte>, b: seq<byte>, c: seq<byte>)
    ensures s + a + b + c == s + (a + b + c)
  {
  }

  /** Appending to a stream that holds start + a gives start + (a + r). */
  lemma Extended(start: seq<byte>, a: seq<byte>, r: seq<byte>, before: seq<byte>, after: seq<byte>)
    requires before == start + a && after == before + r
    ensures after == start + (a + r)
  {
  }

  /** The record of the triangle whose indices start at j, after the
      records of the triangles before it. */
  method PushFace(out: ByteStream, ghost start: seq<byte>, vs: seq<Vertex>, ix: seq<int>, j: nat, ghost t: nat, bits: real -> Word)
    requires IndicesOk(vs, ix) && j == 3 * t && j + 3 <= |ix|
    requires out.data == start + Tris(vs, ix, bits, t)
    modifies out
    ensures out.data == start + Tris(vs, ix, bits, t + 1)
  {
    var v0 := vs[ix[j + 0]];
    var v1 := vs[ix[j + 1]];
    var v2 := vs[ix[j + 2]];
    assert v0 == vs[ix[3 * t]] && v1 == vs[ix[3 * t + 1]] && v2 == vs[ix[3 * t + 2]];
    TrisNext(vs, ix, bits, t);
    ghost var before := out.data;
    PushTriangle(out, v0, v1, v2, bits);
    Extended(start, Tris(vs, ix, bits, t), TriRecord(v0, v1, v2, bits), before, out.data);
  }

  /** The blob of a part, built by walking its index list three at a time. */
  method BuildBlob(part: MeshPart<int>, bits: real -> Word) returns (data: seq<byte>)
    requires IndicesOk(part.vertex, part.indices)
    ensures data == Blob(part.vertex, part.indices, bits)
  {
    var vs, ix := part.vertex, part.indices;
    var out := new ByteStream();
    PushHead(out);
    ghost var q := |ix| / 3;
    Thirds(|ix|);
    var j := 0;
    ghost var t := 0;
    while j < |ix|
      invariant j == 3 * t && t <= q
      invariant out.data == Head + Tris(vs, ix, bits, t)
    {
      PushFace(out, Head, vs, ix, j, t, bits);
      j := j + 3;
      t := t + 1;
    }
    assert t == q;
    data := out.data;
  }

  /** SALVL_CSGMesh: the Base64 text of the blob and the Base64 text of the
      MD5 digest of that text. */
  datatype CsgMesh = CsgMesh(encBase64: string, encHash: string)

  /** The bytes of a string's characters, as its c_str() is handed to MD5. */
  function TextBytes(s: string): (b: seq<byte>)
    ensures |b| == |s|
  {
    seq(|s|, k requires 0 <= k < |s| => (s[k] as int) % 0x100)
  }

  /** What SALVL_CSGMesh::Encode stores for a blob; the MD5 digest is a
      parameter. */
  function Encoded(data: seq<byte>, md5: seq<byte> -> seq<byte>): CsgMesh
  {
    var text := Base64.Lines(Base64.Encode(data));
    CsgMesh(text, Base64.Lines(Base64.Encode(md5(TextBytes(text)))))
  }

  /** Both fields decode back: the text to the blob, the key to the digest
      of the text. */
  lemma EncodedDecodes(data: seq<byte>, md5: seq<byte> -> seq<byte>)
    ensures Base64.Decode(Base64.Unbroken(Encoded(data, md5).encBase64)) == data
    ensures Base64.Decode(Base64.Unbroken(Encoded(data, md5).encHash)) ==
            md5(TextBytes(Encoded(data, md5).encBase64))
  {
    Base64.DecodeOutput(data);
    Base64.DecodeOutput(md5(TextBytes(Encoded(data, md5).encBase64)));
  }

  /** SALVL_CSGMesh::Encode. */
  method Encode(data: seq<byte>, md5: seq<byte> -> seq<byte>) returns (m: CsgMesh)
    ensures m == Encoded(data, md5)
    ensures Base64.Decode(Base64.Unbroken(m.encBase64)) == data
  {
    var text := Base64.Base64(data);
    var digest := md5(TextBytes(text));
    var key := Base64.Base64(digest);
    m := CsgMesh(text, key);
    EncodedDecodes(data, md5);
  }

  /** The part object a placed part instance stands for. */
  function PartOf(meshes: map<int, Mesh<int>>, p: Placement.PartInstance): MeshPart<int>
    requires p.mesh in meshes && p.material in meshes[p.mesh].parts
  {
    meshes[p.mesh].parts[p.material]
  }

  /** The part objects of a list of part instances (the meshpart references
      the collision list holds). */
  function PartsOf(meshes: map<int, Mesh<int>>, collision: seq<Placement.PartInstance>): (ps: seq<MeshPart<int>>)
    requires forall n :: 0 <= n < |collision| ==>
               collision[n].mesh in meshes && collision[n].material in meshes[collision[n].mesh].parts
    ensures |ps| == |collision| && forall n :: 0 <= n < |collision| ==> ps[n] == PartOf(meshes, collision[n])
  {
    seq(|collision|, n requires 0 <= n < |collision| => PartOf(meshes, collision[n]))
  }

  /** m is the encoding of the blob of part p. */
  predicate EntryOf(p: MeshPart<int>, m: CsgMesh, bits: real -> Word, md5: seq<byte> -> seq<byte>)
    reads p
  {
    IndicesOk(p.vertex, p.indices) && m == Encoded(Blob(p.vertex, p.indices, bits), md5)
  }

  /** Every cache entry is the encoding of its part's blob. */
  predicate CacheOk(memo: map<MeshPart<int>, CsgMesh>, bits: real -> Word, md5: seq<byte> -> seq<byte>)
    reads memo.Keys
  {
    forall p :: p in memo ==> EntryOf(p, memo[p], bits, md5)
  }

  /** The blob of a part, built and encoded. */
  method Entry(part: MeshPart<int>, bits: real -> Word, md5: seq<byte> -> seq<byte>) returns (m: CsgMesh)
    requires IndicesOk(part.vertex, part.indices)
    ensures EntryOf(part, m, bits, md5)
  {
    var data := BuildBlob(part, bits);
    m := Encode(data, md5);
  }

  /** The cache after the first n collision part instances: every entry
      is its part's encoded blob, instance i was given its part's key, and
      the parts whose blobs were built, in the order they were built, are
      the n parts with repeats dropped (the entries are exactly those). */
  ghost predicate CachedUpTo(parts: seq<MeshPart<int>>, n: nat, bits: real -> Word, md5: seq<byte> -> seq<byte>,
                       memo: map<MeshPart<int>, CsgMesh>, keys: seq<string>, built: seq<MeshPart<int>>)
    reads memo.Keys
  {
    n <= |parts| && CacheOk(memo, bits, md5) && |keys| == n &&
    (forall i :: 0 <= i < n ==> parts[i] in memo && keys[i] == memo[parts[i]].encHash) &&
    built == InsertAll([], parts[..n]) &&
    (forall p :: p in memo ==> p in built) &&
    (forall i :: 0 <= i < |built| ==> built[i] in memo)
  }

  /** The build list of one more instance is the old one with its part
      inserted. */
  lemma BuiltNext(parts: seq<MeshPart<int>>, n: nat, built: seq<MeshPart<int>>)
    requires n < |parts| && built == InsertAll([], parts[..n])
    ensures InsertAll([], parts[..n + 1]) == Inserted(built, parts[n])
  {
    assert parts[..n + 1] == parts[..n] + [parts[n]];
    InsertAllSnoc([], parts[..n], parts[n]);
  }

  /** A turn of the collision loop that finds the part cached. */
  lemma CachedHit(parts: seq<MeshPart<int>>, n: nat, bits: real -> Word, md5: seq<byte> -> seq<byte>,
                  memo: map<MeshPart<int>, CsgMesh>, keys: seq<string>, built: seq<MeshPart<int>>)
    requires n < |parts| && parts[n] in memo
    requires CachedUpTo(parts, n, bits, md5, memo, keys, built)
    ensures CachedUpTo(parts, n + 1, bits, md5, memo, keys + [memo[parts[n]].encHash], built)
  {
    BuiltNext(parts, n, built);
  }

  /** A turn of the collision loop that builds and stores the part's entry. */
  lemma CachedMiss(parts: seq<MeshPart<int>>, n: nat, bits: real -> Word, md5: seq<byte> -> seq<byte>,
                   memo: map<MeshPart<int>, CsgMesh>, keys: seq<string>, built: seq<MeshPart<int>>, m: CsgMesh)
    requires n < |parts| && parts[n] !in memo && EntryOf(parts[n], m, bits, md5)
    requires CachedUpTo(parts, n, bits, md5, memo, keys, built)
    ensures CachedUpTo(parts, n + 1, bits, md5, memo[parts[n] := m], keys + [m.encHash], built + [parts[n]])
  {
    var memo', keys', built' := memo[parts[n] := m], keys + [m.encHash], built + [parts[n]];
    forall p | p in memo'
      ensures EntryOf(p, memo'[p], bits, md5)
    {
      if p != parts[n] {
        assert memo'[p] == memo[p];
      }
    }
    forall i | 0 <= i < n + 1
      ensures parts[i] in memo' && keys'[i] == memo'[parts[i]].encHash
    {
      if i < n {
        assert keys'[i] == keys[i];
      }
    }
    BuiltNext(parts, n, built);
    assert built' == Inserted(built, parts[n]);
  }

  /** One turn of the collision loop: meshpart_csgmesh.find, on a miss the
      blob built, encoded and stored, then the instance's key. */
  method CollisionStep(parts: seq<MeshPart<int>>, n: nat, bits: real -> Word, md5: seq<byte> -> seq<byte>,
                       memo: map<MeshPart<int>, CsgMesh>, keys: seq<string>, ghost built: seq<MeshPart<int>>)
      returns (memo': map<MeshPart<int>, CsgMesh>, keys': seq<string>, ghost built': seq<MeshPart<int>>)
    requires n < |parts| && IndicesOk(parts[n].vertex, parts[n].indices)
    requires CachedUpTo(parts, n, bits, md5, memo, keys, built)
    ensures CachedUpTo(parts, n + 1, bits, md5, memo', keys', built')
  {
    var part := parts[n];
    if part in memo {
      CachedHit(parts, n, bits, md5, memo, keys, built);
      memo', keys', built' := memo, keys + [memo[part].encHash], built;
    } else {
      var m := Entry(part, bits, md5);
      CachedMiss(parts, n, bits, md5, memo, keys, built, m);
      memo', keys', built' := memo[part := m], keys + [m.encHash], built + [part];
    }
  }

  /** The collision loop's blob cache over the parts of the collision part
      instances in list order: a part gets its blob built and encoded the
      first time it is met, and every instance is given the key of its
      part's blob (the PhysicalConfigData shared string). `built` lists the
      parts whose blobs were built, in order: each distinct part once, at
      its first appearance. */
  method CollisionMeshes(parts: seq<MeshPart<int>>, bits: real -> Word, md5: seq<byte> -> seq<byte>)
      returns (memo: map<MeshPart<int>, CsgMesh>, keys: seq<string>, ghost built: seq<MeshPart<int>>)
    requires forall n :: 0 <= n < |parts| ==> IndicesOk(parts[n].vertex, parts[n].indices)
    ensures forall p :: p in memo <==> p in parts
    ensures forall p :: p in memo ==> EntryOf(p, memo[p], bits, md5)
    ensures |keys| == |parts|
    ensures forall n :: 0 <= n < |parts| ==> keys[n] == memo[parts[n]].encHash
    ensures built == InsertAll([], parts) && NoDup(built)
  {
    memo := map[];
    keys := [];
    built := [];
    for n := 0 to |parts|
      invariant CachedUpTo(parts, n, bits, md5, memo, keys, built)
    {
      memo, keys, built := CollisionStep(parts, n, bits, md5, memo, keys, built);
    }
    assert parts[..|parts|] == parts;
    InsertAllFacts([], parts);
  }

  /** The keys of a list of encoded blobs. */
  function KeysOf(ms: seq<CsgMesh>): set<string>
  {
    set m | m in ms :: m.encHash
  }

  /** The first entry of every key, in list order. */
  function FirstByKey(ms: seq<CsgMesh>): seq<CsgMesh>
  {
    if |ms| == 0 then []
    else
      var r := FirstByKey(ms[..|ms| - 1]);
      if ms[|ms| - 1].encHash in KeysOf(r) then r else r + [ms[|ms| - 1]]
  }

  /** The shared string list names each key once, holds only listed entries
      and misses no key. */
  lemma {:induction false} FirstByKeyFacts(ms: seq<CsgMesh>)
    ensures forall i, j :: 0 <= i < j < |FirstByKey(ms)| ==> FirstByKey(ms)[i].encHash != FirstByKey(ms)[j].encHash
    ensures forall m :: m in FirstByKey(ms) ==> m in ms
    ensures KeysOf(FirstByKey(ms)) == KeysOf(ms)
  {
    if |ms| > 0 {
      var init := ms[..|ms| - 1];
      var m := ms[|ms| - 1];
      FirstByKeyFacts(init);
      assert ms == init + [m];
      assert KeysOf(ms) == KeysOf(init) + {m.encHash};
      var r := FirstByKey(init);
      if m.encHash !in KeysOf(r) {
        assert KeysOf(r + [m]) == KeysOf(r) + {m.encHash};
        forall i | 0 <= i < |r|
          ensures r[i].encHash != m.encHash
        {
          assert r[i] in r;
        }
      }
    }
  }

  /** The cache entries in the order the cache is visited. */
  function InOrder(memo: map<MeshPart<int>, CsgMesh>, visit: seq<MeshPart<int>>): (ms: seq<CsgMesh>)
    requires forall k :: 0 <= k < |visit| ==> visit[k] in memo
    ensures |ms| == |visit| && forall k :: 0 <= k < |visit| ==> ms[k] == memo[visit[k]]
  {
    seq(|visit|, k requires 0 <= k < |visit| => memo[visit[k]])
  }

  /** The SharedStrings section: the cache is visited in `visit` order (the
      iteration order of the unordered map) and an entry is listed unless an
      entry with the same key was listed before. */
  method SharedStrings(memo: map<MeshPart<int>, CsgMesh>, visit: seq<MeshPart<int>>) returns (shared: seq<CsgMesh>)
    requires forall p :: p in memo <==> p in visit
    ensures shared == FirstByKey(InOrder(memo, visit))
    ensures forall i, j :: 0 <= i < j < |shared| ==> shared[i].encHash != shared[j].encHash
    ensures forall m :: m in shared ==> m in memo.Values
    ensures forall p :: p in memo ==> memo[p].encHash in KeysOf(shared)
  {
    var ms := InOrder(memo, visit);
    shared := [];
    var seen: set<string> := {};
    for i := 0 to |visit|
      invariant shared == FirstByKey(ms[..i])
      invariant seen == KeysOf(shared)
    {
      var m := memo[visit[i]];
      assert ms[..i + 1][..i] == ms[..i];
      if m.encHash !in seen {
        shared := shared + [m];
        seen := seen + {m.encHash};
      }
    }
    assert ms[..|visit|] == ms;
    FirstByKeyFacts(ms);
    forall m | m in shared
      ensures m in memo.Values
    {
      var k :| 0 <= k < |ms| && ms[k] == m;
    }
    forall p | p in memo
      ensures memo[p].encHash in KeysOf(shared)
    {
      var k :| 0 <= k < |visit| && visit[k] == p;
      assert ms[k] in ms;
    }
  }
}
