/** Small value types shared by every revision of the converter: optional
    values, 3- and 2-component vectors (floats are modelled as reals), bytes,
    32-bit words, and the two integer conversions the index buffers go
    through (Uint16 -> Sint16 on storage, Sint16 -> Uint32 on output). */
module Types {

  datatype Option<T> = None | Some(value: T)

  /** NJS_VECTOR */
  datatype Vec3 = Vec3(x: real, y: real, z: real)

  /** NJS_POINT2 */
  datatype Vec2 = Vec2(x: real, y: real)

  const Zero3: Vec3 := Vec3(0.0, 0.0, 0.0)
  const Zero2: Vec2 := Vec2(0.0, 0.0)

  function Add3(a: Vec3, b: Vec3): Vec3 { Vec3(a.x + b.x, a.y + b.y, a.z + b.z) }
  function Sub3(a: Vec3, b: Vec3): Vec3 { Vec3(a.x - b.x, a.y - b.y, a.z - b.z) }
  function Scale3(a: Vec3, k: real): Vec3 { Vec3(a.x * k, a.y * k, a.z * k) }

  /** The product of two floats. Rounding is not modelled: this is the exact
      product of the reals. */
  function Mul(x: real, y: real): real
  {
    x * y
  }

  /** Coordinate `axis` (0 = x, 1 = y, 2 = z) of a vector. */
  function Coord(p: Vec3, axis: nat): real
    requires axis < 3
  {
    if axis == 0 then p.x else if axis == 1 then p.y else p.z
  }

  type byte = b: int | 0 <= b < 0x100
  type Uint16 = u: int | 0 <= u < 0x1_0000
  type Sint16 = s: int | -0x8000 <= s < 0x8000
  type Word = w: int | 0 <= w < 0x1_0000_0000

  /** Storing a Uint16 in a Sint16 slot: values from 0x8000 on wrap to negatives. */
  function ToSint16(u: int): (s: Sint16)
    requires 0 <= u < 0x1_0000
    ensures s % 0x1_0000 == u
    ensures u < 0x8000 ==> s == u
  {
    if u < 0x8000 then u else u - 0x1_0000
  }

  /** Converting a Sint16 to an unsigned 32-bit value: sign extension. */
  function Widen32(s: int): (w: Word)
    requires -0x8000 <= s < 0x8000
    ensures w % 0x1_0000 == s % 0x1_0000
    ensures s >= 0 ==> w == s
    ensures s < 0 ==> w >= 0xFFFF_8000
  {
    if s >= 0 then s else s + 0x1_0000_0000
  }

  /** Counting in an unsigned int wraps modulo 2^32. */
  lemma WordSucc(n: nat)
    ensures (n % 0x1_0000_0000 + 1) % 0x1_0000_0000 == (n + 1) % 0x1_0000_0000
  {
    var q := n / 0x1_0000_0000;
    assert n == 0x1_0000_0000 * q + n % 0x1_0000_0000;
  }
}
