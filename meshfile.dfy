/** The binary mesh file, version 2.00, written once per mesh part by both
    the standalone converter (.msh) and the emitter (.mesh): the text
    "version 2.00\n", the header sizes 12 (as a Uint16), 0x28 and 0x0C, the
    vertex count and the face count (|indices| / 3) as little-endian words,
    40 bytes per vertex (position, normal, texture coordinate as float
    words, four zero tangent bytes, four 0xFF tint bytes) and 4 bytes per
    index (the Sint16 converted to a 32-bit unsigned word). */
module MeshFile {
  import opened Types
  import opened Bytes

  /** What one vertex record carries. */
  datatype Attribs = Attribs(pos: Vec3, nor: Vec3, tex: Vec2)

  /** "version 2.00\n" */
  const Magic: seq<byte> := [0x76, 0x65, 0x72, 0x73, 0x69, 0x6F, 0x6E, 0x20, 0x32, 0x2E, 0x30, 0x30, 0x0A]

  /** sizeof_MeshHeader (12, as a Uint16), sizeof_MeshVertex and sizeof_MeshFace. */
  const Sizes: seq<byte> := [0x0C, 0x00, 0x28, 0x0C]

  /** The tangent bytes and the RGBA tint bytes of every record. */
  const Tail: seq<byte> := [0x00, 0x00, 0x00, 0x00, 0xFF, 0xFF, 0xFF, 0xFF]

  /** The float words of a vector. */
  function Vec3Words(v: Vec3, bits: real -> Word): (r: seq<byte>)
    ensures |r| == 12
  {
    Le32(bits(v.x)) + Le32(bits(v.y)) + Le32(bits(v.z))
  }

  function Vec2Words(v: Vec2, bits: real -> Word): (r: seq<byte>)
    ensures |r| == 8
  {
    Le32(bits(v.x)) + Le32(bits(v.y))
  }

  /** One 40-byte vertex record. */
  function Record(a: Attribs, bits: real -> Word): (r: seq<byte>)
    ensures |r| == 40
  {
    Vec3Words(a.pos, bits) + Vec3Words(a.nor, bits) + Vec2Words(a.tex, bits) + Tail
  }

  /** The records of the vertices 0 .. k-1, in order. */
  function Records(vs: seq<Attribs>, bits: real -> Word, k: nat): (r: seq<byte>)
    requires k <= |vs|
    ensures |r| == 40 * k
  {
    if k == 0 then [] else Records(vs, bits, k - 1) + Record(vs[k - 1], bits)
  }

  /** `unsigned int index = k`: a Sint16 converted to unsigned 32 bits. */
  function IndexWord(k: int): Word
  {
    k % 0x1_0000_0000
  }

  /** The index words of the indices 0 .. k-1, in order. */
  function IndexWords(ix: seq<int>, k: nat): (r: seq<byte>)
    requires k <= |ix|
    ensures |r| == 4 * k
  {
    if k == 0 then [] else IndexWords(ix, k - 1) + Le32(IndexWord(ix[k - 1]))
  }

  /** The header: magic, sizes, vertex count and face count (both taken modulo 2^32). */
  function Header(nv: nat, ni: nat): (r: seq<byte>)
    ensures |r| == 25
  {
    Magic + Sizes + Le32(nv % 0x1_0000_0000) + Le32((ni / 3) % 0x1_0000_0000)
  }

  /** The whole file of a part. */
  function File(vs: seq<Attribs>, ix: seq<int>, bits: real -> Word): seq<byte>
  {
    Header(|vs|, |ix|) + Records(vs, bits, |vs|) + IndexWords(ix, |ix|)
  }

  /** A slice inside the first or the second operand of a concatenation. */
  lemma SliceOfAppend(a: seq<byte>, b: seq<byte>, i: nat, j: nat)
    requires i <= j
    ensures j <= |a| ==> (a + b)[i..j] == a[i..j]
    ensures |a| <= i && j <= |a| + |b| ==> (a + b)[i..j] == b[i - |a| .. j - |a|]
  {
  }

  /** Record j sits at byte 40j of the records of the first k vertices. */
  lemma {:induction false} RecordsAt(vs: seq<Attribs>, bits: real -> Word, k: nat, j: nat)
    requires j < k <= |vs|
    ensures Records(vs, bits, k)[40 * j .. 40 * j + 40] == Record(vs[j], bits)
  {
    SliceOfAppend(Records(vs, bits, k - 1), Record(vs[k - 1], bits), 40 * j, 40 * j + 40);
    if j < k - 1 {
      RecordsAt(vs, bits, k - 1, j);
    }
  }

  /** Index j sits at byte 4j of the index words of the first k indices. */
  lemma {:induction false} IndexWordsAt(ix: seq<int>, k: nat, j: nat)
    requires j < k <= |ix|
    ensures IndexWords(ix, k)[4 * j .. 4 * j + 4] == Le32(IndexWord(ix[j]))
  {
    SliceOfAppend(IndexWords(ix, k - 1), Le32(IndexWord(ix[k - 1])), 4 * j, 4 * j + 4);
    if j < k - 1 {
      IndexWordsAt(ix, k - 1, j);
    }
  }

  /** A Sint16 converted to 32 bits is its sign extension, and its low 16
      bits read as a Sint16 give it back. */
  lemma IndexWordOfSint16(k: int)
    requires -0x8000 <= k < 0x8000
    ensures IndexWord(k) == Widen32(k)
    ensures ToSint16(IndexWord(k) % 0x1_0000) == k
  {
  }

  /** The file starts with the magic and the sizes, and its two counts
      read back as V and I / 3 (modulo 2^32); its length is 25 + 40V + 4I. */
  lemma FileHeader(vs: seq<Attribs>, ix: seq<int>, bits: real -> Word)
    ensures var f := File(vs, ix, bits);
            |f| == 25 + 40 * |vs| + 4 * |ix| &&
            f[..13] == Magic && f[13..17] == Sizes &&
            Read32(f[17..21]) == |vs| % 0x1_0000_0000 &&
            Read32(f[21..25]) == (|ix| / 3) % 0x1_0000_0000
  {
    var f := File(vs, ix, bits);
    var h := Header(|vs|, |ix|);
    assert f[..25] == h;
    assert f[17..21] == h[17..21] == Le32(|vs| % 0x1_0000_0000);
    assert f[21..25] == h[21..25] == Le32((|ix| / 3) % 0x1_0000_0000);
    Le32RoundTrip(|vs| % 0x1_0000_0000, f[17..21]);
    Le32RoundTrip((|ix| / 3) % 0x1_0000_0000, f[21..25]);
  }

  /** Vertex k's record is at byte 25 + 40k. */
  lemma FileRecord(vs: seq<Attribs>, ix: seq<int>, bits: real -> Word, k: nat)
    requires k < |vs|
    ensures File(vs, ix, bits)[25 + 40 * k .. 25 + 40 * k + 40] == Record(vs[k], bits)
  {
    var rs := Records(vs, bits, |vs|);
    RecordsAt(vs, bits, |vs|, k);
    assert File(vs, ix, bits) == Header(|vs|, |ix|) + (rs + IndexWords(ix, |ix|));
    assert (rs + IndexWords(ix, |ix|))[40 * k .. 40 * k + 40] == rs[40 * k .. 40 * k + 40];
  }

  /** Index k's word at byte 25 + 40V + 4k reads back as the index modulo
      2^32, which for a Sint16 index is its sign extension. */
  lemma FileIndex(vs: seq<Attribs>, ix: seq<int>, bits: real -> Word, k: nat)
    requires k < |ix|
    ensures var at := 25 + 40 * |vs| + 4 * k;
            Read32(File(vs, ix, bits)[at .. at + 4]) == ix[k] % 0x1_0000_0000
  {
    var ws := IndexWords(ix, |ix|);
    var at := 25 + 40 * |vs| + 4 * k;
    IndexWordsAt(ix, |ix|, k);
    assert File(vs, ix, bits) == (Header(|vs|, |ix|) + Records(vs, bits, |vs|)) + ws;
    assert File(vs, ix, bits)[at .. at + 4] == ws[4 * k .. 4 * k + 4];
    Le32RoundTrip(IndexWord(ix[k]), ws[4 * k .. 4 * k + 4]);
  }

  /** Writes one part's file to `out`: the magic, the sizes, the two counts,
      one record per vertex, one word per index. */
  method WriteFile(out: ByteStream, vs: seq<Attribs>, ix: seq<int>, bits: real -> Word)
    modifies out
    ensures out.data == old(out.data) + File(vs, ix, bits)
  {
    ghost var start := out.data;
    WriteHeader(out, |vs|, |ix|);
    WriteRecords(out, vs, bits);
    WriteIndices(out, ix);
    assert out.data == start + Header(|vs|, |ix|) + Records(vs, bits, |vs|) + IndexWords(ix, |ix|);
  }

  /** "version 2.00\n", Write16(12), 0x28, 0x0C, the vertex count and the face count. */
  method WriteHeader(out: ByteStream, nv: nat, ni: nat)
    modifies out
    ensures out.data == old(out.data) + Header(nv, ni)
  {
    ghost var start := out.data;
    out.PutAll(Magic);
    out.Push16(12);
    out.Put(0x28);
    out.Put(0x0C);
    assert out.data == start + Magic + Sizes;
    out.Push32(nv % 0x1_0000_0000);
    out.Push32((ni / 3) % 0x1_0000_0000);
  }

  /** The vertex loop. */
  method WriteRecords(out: ByteStream, vs: seq<Attribs>, bits: real -> Word)
    modifies out
    ensures out.data == old(out.data) + Records(vs, bits, |vs|)
  {
    ghost var start := out.data;
    var k := 0;
    while k < |vs|
      invariant k <= |vs|
      invariant out.data == start + Records(vs, bits, k)
    {
      WriteRecord(out, vs[k], bits);
      k := k + 1;
    }
  }

  /** The index loop: each index converted to an unsigned word. */
  method WriteIndices(out: ByteStream, ix: seq<int>)
    modifies out
    ensures out.data == old(out.data) + IndexWords(ix, |ix|)
  {
    ghost var start := out.data;
    var k := 0;
    while k < |ix|
      invariant k <= |ix|
      invariant out.data == start + IndexWords(ix, k)
    {
      out.Push32(ix[k] % 0x1_0000_0000);
      k := k + 1;
    }
  }

  /** One vertex record: eight float words, four tangent bytes, four tint bytes. */
  method WriteRecord(out: ByteStream, a: Attribs, bits: real -> Word)
    modifies out
    ensures out.data == old(out.data) + Record(a, bits)
  {
    ghost var start := out.data;
    WriteVec3(out, a.pos, bits);
    WriteVec3(out, a.nor, bits);
    out.PushFloat(a.tex.x, bits);
    out.PushFloat(a.tex.y, bits);
    assert out.data == start + Vec3Words(a.pos, bits) + Vec3Words(a.nor, bits) + Vec2Words(a.tex, bits);
    out.PutAll(Tail);
  }

  method WriteVec3(out: ByteStream, v: Vec3, bits: real -> Word)
    modifies out
    ensures out.data == old(out.data) + Vec3Words(v, bits)
  {
    out.PushFloat(v.x, bits);
    out.PushFloat(v.y, bits);
    out.PushFloat(v.z, bits);
  }
}
