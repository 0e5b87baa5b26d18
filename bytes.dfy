/** Little-endian byte output. Push16, Push32 and PushFloat append to a
    byte vector; Write16, Write32 and WriteFloat put the same bytes to a
    file stream, so one byte stream models both. A float is written as its
    32-bit pattern, which this model takes as a parameter `bits`. */
module Bytes {
  import opened Types

  /** The low n bytes of x, low byte first: byte k is (x >> 8k) & 0xFF. */
  function LeBytes(x: nat, n: nat): (r: seq<byte>)
    ensures |r| == n
  {
    if n == 0 then [] else [x % 0x100] + LeBytes(x / 0x100, n - 1)
  }

  /** The two bytes of a Uint16, low byte first. */
  function Le16(x: Uint16): (r: seq<byte>)
    ensures |r| == 2
  {
    LeBytes(x, 2)
  }

  /** The four bytes of a 32-bit word, low byte first. */
  function Le32(x: Word): (r: seq<byte>)
    ensures |r| == 4
  {
    LeBytes(x, 4)
  }

  /** Le16 and Le32 written out byte by byte. */
  lemma LeUnfolded(x: nat)
    ensures LeBytes(x, 2) == [x % 0x100, (x / 0x100) % 0x100]
    ensures LeBytes(x, 4) == [x % 0x100, (x / 0x100) % 0x100, (x / 0x100 / 0x100) % 0x100, (x / 0x100 / 0x100 / 0x100) % 0x100]
  {
    var q1 := x / 0x100;
    var q2 := q1 / 0x100;
    var q3 := q2 / 0x100;
    assert LeBytes(q3, 1) == [q3 % 0x100] + LeBytes(q3 / 0x100, 0);
    assert LeBytes(q2, 2) == [q2 % 0x100] + LeBytes(q3, 1);
    assert LeBytes(q1, 3) == [q1 % 0x100] + LeBytes(q2, 2);
    assert LeBytes(q1, 1) == [q1 % 0x100] + LeBytes(q2, 0);
  }

  /** Two bytes read back, low byte first. */
  function Read16(b: seq<byte>): Uint16
    requires |b| == 2
  {
    b[0] as int + 0x100 * (b[1] as int)
  }

  /** Four bytes read back, low byte first. */
  function Read32(b: seq<byte>): Word
    requires |b| == 4
  {
    b[0] as int + 0x100 * (b[1] as int) + 0x1_0000 * (b[2] as int) + 0x100_0000 * (b[3] as int)
  }

  /** Reading the bytes of a Uint16 gives the value back, and every pair of
      bytes is the encoding of the value it reads as. */
  lemma Le16RoundTrip(x: Uint16, b: seq<byte>)
    requires |b| == 2
    ensures Read16(Le16(x)) == x
    ensures Le16(Read16(b)) == b
  {
    LeUnfolded(x);
    LeUnfolded(Read16(b));
  }

  /** Reading the bytes of a word gives the word back, and every four bytes
      are the encoding of the word they read as. */
  lemma Le32RoundTrip(x: Word, b: seq<byte>)
    requires |b| == 4
    ensures Read32(Le32(x)) == x
    ensures Le32(Read32(b)) == b
  {
    LeUnfolded(x);
    var q1 := x / 0x100;
    var q2 := q1 / 0x100;
    var q3 := q2 / 0x100;
    assert x == 0x100 * q1 + x % 0x100;
    assert q1 == 0x100 * q2 + q1 % 0x100;
    assert q2 == 0x100 * q3 + q2 % 0x100;
    assert q3 % 0x100 == q3;
    var w := Read32(b);
    LeUnfolded(w);
    assert w / 0x100 == b[1] as int + 0x100 * (b[2] as int) + 0x1_0000 * (b[3] as int);
    assert w / 0x100 / 0x100 == b[2] as int + 0x100 * (b[3] as int);
    assert w / 0x100 / 0x100 / 0x100 == b[3] as int;
  }

  /** A byte vector (or an output file) that bytes are appended to. */
  class ByteStream {
    var data: seq<byte>

    constructor ()
      ensures data == []
    {
      data := [];
    }

    /** push_back / put of one byte. */
    method Put(b: byte)
      modifies this
      ensures data == old(data) + [b]
    {
      data := data + [b];
    }

    /** A run of bytes written in one call. */
    method PutAll(bs: seq<byte>)
      modifies this
      ensures data == old(data) + bs
    {
      data := data + bs;
    }

    /** Push16 / Write16: the low byte, then the high byte. */
    method Push16(x: Uint16)
      modifies this
      ensures data == old(data) + Le16(x)
    {
      LeUnfolded(x);
      Put(x % 0x100);
      Put(x / 0x100);
    }

    /** Push32 / Write32: four bytes, low byte first; the bytes before are kept. */
    method Push32(x: Word)
      modifies this
      ensures data == old(data) + Le32(x)
    {
      LeUnfolded(x);
      Put(x % 0x100);
      Put((x / 0x100) % 0x100);
      Put((x / 0x100 / 0x100) % 0x100);
      Put(x / 0x100 / 0x100 / 0x100);
    }

    /** PushFloat / WriteFloat: the float's bit pattern as a word. */
    method PushFloat(x: real, bits: real -> Word)
      modifies this
      ensures data == old(data) + Le32(bits(x))
    {
      Push32(bits(x));
    }
  }
}
