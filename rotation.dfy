/** Ninja matrix rotations (Reimp_njRotateX/Y/Z). An NJS_MATRIX is sixteen
    floats stored row by row, entry (r, c) at index 4r + c. A rotation about
    one axis mixes two rows of the matrix with the sine and cosine of the
    angle; the angle-to-sine conversion is not modelled, so `s` and `c` are
    parameters.

    Two revisions exist. The standalone converter saves the first row before
    overwriting it, so both new rows are computed from the old ones (RotX,
    RotY, RotZ). The shared library overwrites the first row and then
    computes the second row from the NEW first row (RotXAsWritten, ...); see
    `AsWrittenCollapses` for an input where this loses the matrix. The SA1
    and SA2 loaders call the shared library, so their instance matrix
    (LoaderMatrix) is built from the as-written rotations; the matrix they
    evidently intend is IntendedLoaderMatrix. */
module Rotation {
  import opened Types

  const Identity: seq<real> :=
    [1.0, 0.0, 0.0, 0.0,
     0.0, 1.0, 0.0, 0.0,
     0.0, 0.0, 1.0, 0.0,
     0.0, 0.0, 0.0, 1.0]

  /** Rotation about X: rows 1 and 2 are mixed, both from their old values. */
  function RotX(m: seq<real>, s: real, c: real): seq<real>
    requires |m| == 16
  {
    m[4 := Mul(s, m[8]) + Mul(m[4], c)]
     [5 := Mul(s, m[9]) + Mul(m[5], c)]
     [6 := Mul(s, m[10]) + Mul(m[6], c)]
     [7 := Mul(s, m[11]) + Mul(m[7], c)]
     [8 := Mul(c, m[8]) - Mul(m[4], s)]
     [9 := Mul(c, m[9]) - Mul(m[5], s)]
     [10 := Mul(c, m[10]) - Mul(m[6], s)]
     [11 := Mul(c, m[11]) - Mul(m[7], s)]
  }

  /** Rotation about Y: rows 0 and 2 are mixed, both from their old values. */
  function RotY(m: seq<real>, s: real, c: real): seq<real>
    requires |m| == 16
  {
    m[0 := Mul(m[0], c) - Mul(s, m[8])]
     [1 := Mul(m[1], c) - Mul(s, m[9])]
     [2 := Mul(m[2], c) - Mul(s, m[10])]
     [3 := Mul(m[3], c) - Mul(s, m[11])]
     [8 := Mul(c, m[8]) + Mul(m[0], s)]
     [9 := Mul(c, m[9]) + Mul(m[1], s)]
     [10 := Mul(c, m[10]) + Mul(m[2], s)]
     [11 := Mul(c, m[11]) + Mul(m[3], s)]
  }

  /** Rotation about Z: rows 0 and 1 are mixed, both from their old values. */
  function RotZ(m: seq<real>, s: real, c: real): seq<real>
    requires |m| == 16
  {
    m[0 := Mul(m[0], c) + Mul(s, m[4])]
     [1 := Mul(m[1], c) + Mul(s, m[5])]
     [2 := Mul(m[2], c) + Mul(s, m[6])]
     [3 := Mul(m[3], c) + Mul(s, m[7])]
     [4 := Mul(c, m[4]) - Mul(m[0], s)]
     [5 := Mul(c, m[5]) - Mul(m[1], s)]
     [6 := Mul(c, m[6]) - Mul(m[2], s)]
     [7 := Mul(c, m[7]) - Mul(m[3], s)]
  }

  /** The shared library's rotation about X: row 2 is computed from the
      already overwritten row 1. */
  function RotXAsWritten(m: seq<real>, s: real, c: real): seq<real>
    requires |m| == 16
  {
    var r := m[4 := Mul(s, m[8]) + Mul(m[4], c)]
              [5 := Mul(s, m[9]) + Mul(m[5], c)]
              [6 := Mul(s, m[10]) + Mul(m[6], c)]
              [7 := Mul(s, m[11]) + Mul(m[7], c)];
    r[8 := Mul(c, r[8]) - Mul(r[4], s)]
     [9 := Mul(c, r[9]) - Mul(r[5], s)]
     [10 := Mul(c, r[10]) - Mul(r[6], s)]
     [11 := Mul(c, r[11]) - Mul(r[7], s)]
  }

  /** The shared library's rotation about Y: row 2 reads the new row 0. */
  function RotYAsWritten(m: seq<real>, s: real, c: real): seq<real>
    requires |m| == 16
  {
    var r := m[0 := Mul(m[0], c) - Mul(s, m[8])]
              [1 := Mul(m[1], c) - Mul(s, m[9])]
              [2 := Mul(m[2], c) - Mul(s, m[10])]
              [3 := Mul(m[3], c) - Mul(s, m[11])];
    r[8 := Mul(c, r[8]) + Mul(r[0], s)]
     [9 := Mul(c, r[9]) + Mul(r[1], s)]
     [10 := Mul(c, r[10]) + Mul(r[2], s)]
     [11 := Mul(c, r[11]) + Mul(r[3], s)]
  }

  /** The shared library's rotation about Z: row 1 reads the new row 0. */
  function RotZAsWritten(m: seq<real>, s: real, c: real): seq<real>
    requires |m| == 16
  {
    var r := m[0 := Mul(m[0], c) + Mul(s, m[4])]
              [1 := Mul(m[1], c) + Mul(s, m[5])]
              [2 := Mul(m[2], c) + Mul(s, m[6])]
              [3 := Mul(m[3], c) + Mul(s, m[7])];
    r[4 := Mul(c, r[4]) - Mul(r[0], s)]
     [5 := Mul(c, r[5]) - Mul(r[1], s)]
     [6 := Mul(c, r[6]) - Mul(r[2], s)]
     [7 := Mul(c, r[7]) - Mul(r[3], s)]
  }

  /** Reimp_njRotateX of the standalone converter: M10..M13 are saved first. */
  method RotateX(cframe: array<real>, s: real, c: real)
    requires cframe.Length == 16
    modifies cframe
    ensures cframe[..] == RotX(old(cframe[..]), s, c)
  {
    var m10, m11, m12, m13 := cframe[4], cframe[5], cframe[6], cframe[7];
    cframe[4] := Mul(s, cframe[8]) + Mul(m10, c);
    cframe[5] := Mul(s, cframe[9]) + Mul(m11, c);
    cframe[6] := Mul(s, cframe[10]) + Mul(m12, c);
    cframe[7] := Mul(s, cframe[11]) + Mul(m13, c);
    cframe[8] := Mul(c, cframe[8]) - Mul(m10, s);
    cframe[9] := Mul(c, cframe[9]) - Mul(m11, s);
    cframe[10] := Mul(c, cframe[10]) - Mul(m12, s);
    cframe[11] := Mul(c, cframe[11]) - Mul(m13, s);
    assert cframe[..] == old(cframe[..])[4 := cframe[4]][5 := cframe[5]][6 := cframe[6]][7 := cframe[7]]
                                        [8 := cframe[8]][9 := cframe[9]][10 := cframe[10]][11 := cframe[11]];
  }

  /** Reimp_njRotateY of the standalone converter: M00..M03 are saved first. */
  method RotateY(cframe: array<real>, s: real, c: real)
    requires cframe.Length == 16
    modifies cframe
    ensures cframe[..] == RotY(old(cframe[..]), s, c)
  {
    var m00, m01, m02, m03 := cframe[0], cframe[1], cframe[2], cframe[3];
    cframe[0] := Mul(m00, c) - Mul(s, cframe[8]);
    cframe[1] := Mul(m01, c) - Mul(s, cframe[9]);
    cframe[2] := Mul(m02, c) - Mul(s, cframe[10]);
    cframe[3] := Mul(m03, c) - Mul(s, cframe[11]);
    cframe[8] := Mul(c, cframe[8]) + Mul(m00, s);
    cframe[9] := Mul(c, cframe[9]) + Mul(m01, s);
    cframe[10] := Mul(c, cframe[10]) + Mul(m02, s);
    cframe[11] := Mul(c, cframe[11]) + Mul(m03, s);
    assert cframe[..] == old(cframe[..])[0 := cframe[0]][1 := cframe[1]][2 := cframe[2]][3 := cframe[3]]
                                        [8 := cframe[8]][9 := cframe[9]][10 := cframe[10]][11 := cframe[11]];
  }

  /** Reimp_njRotateZ of the standalone converter: M00..M03 are saved first. */
  method RotateZ(cframe: array<real>, s: real, c: real)
    requires cframe.Length == 16
    modifies cframe
    ensures cframe[..] == RotZ(old(cframe[..]), s, c)
  {
    var m00, m01, m02, m03 := cframe[0], cframe[1], cframe[2], cframe[3];
    cframe[0] := Mul(m00, c) + Mul(s, cframe[4]);
    cframe[1] := Mul(m01, c) + Mul(s, cframe[5]);
    cframe[2] := Mul(m02, c) + Mul(s, cframe[6]);
    cframe[3] := Mul(m03, c) + Mul(s, cframe[7]);
    cframe[4] := Mul(c, cframe[4]) - Mul(m00, s);
    cframe[5] := Mul(c, cframe[5]) - Mul(m01, s);
    cframe[6] := Mul(c, cframe[6]) - Mul(m02, s);
    cframe[7] := Mul(c, cframe[7]) - Mul(m03, s);
    assert cframe[..] == old(cframe[..])[0 := cframe[0]][1 := cframe[1]][2 := cframe[2]][3 := cframe[3]]
                                        [4 := cframe[4]][5 := cframe[5]][6 := cframe[6]][7 := cframe[7]];
  }

  /** Reimp_njRotateX of the shared library, as written: row 2 reads the
      entries of row 1 after they have been overwritten. */
  method RotateXAsWritten(cframe: array<real>, s: real, c: real)
    requires cframe.Length == 16
    modifies cframe
    ensures cframe[..] == RotXAsWritten(old(cframe[..]), s, c)
  {
    cframe[4] := Mul(s, cframe[8]) + Mul(cframe[4], c);
    cframe[5] := Mul(s, cframe[9]) + Mul(cframe[5], c);
    cframe[6] := Mul(s, cframe[10]) + Mul(cframe[6], c);
    cframe[7] := Mul(s, cframe[11]) + Mul(cframe[7], c);
    cframe[8] := Mul(c, cframe[8]) - Mul(cframe[4], s);
    cframe[9] := Mul(c, cframe[9]) - Mul(cframe[5], s);
    cframe[10] := Mul(c, cframe[10]) - Mul(cframe[6], s);
    cframe[11] := Mul(c, cframe[11]) - Mul(cframe[7], s);
    assert cframe[..] == old(cframe[..])[4 := cframe[4]][5 := cframe[5]][6 := cframe[6]][7 := cframe[7]]
                                        [8 := cframe[8]][9 := cframe[9]][10 := cframe[10]][11 := cframe[11]];
  }

  /** Reimp_njRotateY of the shared library, as written. */
  method RotateYAsWritten(cframe: array<real>, s: real, c: real)
    requires cframe.Length == 16
    modifies cframe
    ensures cframe[..] == RotYAsWritten(old(cframe[..]), s, c)
  {
    cframe[0] := Mul(cframe[0], c) - Mul(s, cframe[8]);
    cframe[1] := Mul(cframe[1], c) - Mul(s, cframe[9]);
    cframe[2] := Mul(cframe[2], c) - Mul(s, cframe[10]);
    cframe[3] := Mul(cframe[3], c) - Mul(s, cframe[11]);
    cframe[8] := Mul(c, cframe[8]) + Mul(cframe[0], s);
    cframe[9] := Mul(c, cframe[9]) + Mul(cframe[1], s);
    cframe[10] := Mul(c, cframe[10]) + Mul(cframe[2], s);
    cframe[11] := Mul(c, cframe[11]) + Mul(cframe[3], s);
    assert cframe[..] == old(cframe[..])[0 := cframe[0]][1 := cframe[1]][2 := cframe[2]][3 := cframe[3]]
                                        [8 := cframe[8]][9 := cframe[9]][10 := cframe[10]][11 := cframe[11]];
  }

  /** Reimp_njRotateZ of the shared library, as written. */
  method RotateZAsWritten(cframe: array<real>, s: real, c: real)
    requires cframe.Length == 16
    modifies cframe
    ensures cframe[..] == RotZAsWritten(old(cframe[..]), s, c)
  {
    cframe[0] := Mul(cframe[0], c) + Mul(s, cframe[4]);
    cframe[1] := Mul(cframe[1], c) + Mul(s, cframe[5]);
    cframe[2] := Mul(cframe[2], c) + Mul(s, cframe[6]);
    cframe[3] := Mul(cframe[3], c) + Mul(s, cframe[7]);
    cframe[4] := Mul(c, cframe[4]) - Mul(cframe[0], s);
    cframe[5] := Mul(c, cframe[5]) - Mul(cframe[1], s);
    cframe[6] := Mul(c, cframe[6]) - Mul(cframe[2], s);
    cframe[7] := Mul(c, cframe[7]) - Mul(cframe[3], s);
    assert cframe[..] == old(cframe[..])[0 := cframe[0]][1 := cframe[1]][2 := cframe[2]][3 := cframe[3]]
                                        [4 := cframe[4]][5 := cframe[5]][6 := cframe[6]][7 := cframe[7]];
  }

  /** Two 16-entry matrices that agree entry by entry are equal. */
  lemma Ext16(x: seq<real>, y: seq<real>)
    requires |x| == 16 && |y| == 16
    requires x[0] == y[0] && x[1] == y[1] && x[2] == y[2] && x[3] == y[3]
    requires x[4] == y[4] && x[5] == y[5] && x[6] == y[6] && x[7] == y[7]
    requires x[8] == y[8] && x[9] == y[9] && x[10] == y[10] && x[11] == y[11]
    requires x[12] == y[12] && x[13] == y[13] && x[14] == y[14] && x[15] == y[15]
    ensures x == y
  {
    forall i | 0 <= i < 16
      ensures x[i] == y[i]
    {
      assert i == 0 || i == 1 || i == 2 || i == 3 || i == 4 || i == 5 || i == 6 || i == 7
          || i == 8 || i == 9 || i == 10 || i == 11 || i == 12 || i == 13 || i == 14 || i == 15;
    }
  }

  /** The ring identities behind the round trips: mixing a pair of entries
      (a, b) by an angle with s² + c² = 1 and then by the opposite angle gives
      the pair back, in each of the three shapes the rotations use. */
  lemma MixBack(a: real, b: real, s: real, c: real)
    requires Mul(s, s) + Mul(c, c) == 1.0
    // RotX shape: a' = s·b + a·c, b' = c·b - a·s
    ensures Mul(-s, Mul(c, b) - Mul(a, s)) + Mul(Mul(s, b) + Mul(a, c), c) == a
    ensures Mul(c, Mul(c, b) - Mul(a, s)) - Mul(Mul(s, b) + Mul(a, c), -s) == b
    // RotY shape: a' = a·c - s·b, b' = c·b + a·s
    ensures Mul(Mul(a, c) - Mul(s, b), c) - Mul(-s, Mul(c, b) + Mul(a, s)) == a
    ensures Mul(c, Mul(c, b) + Mul(a, s)) + Mul(Mul(a, c) - Mul(s, b), -s) == b
    // RotZ shape: a' = a·c + s·b, b' = c·b - a·s
    ensures Mul(Mul(a, c) + Mul(s, b), c) + Mul(-s, Mul(c, b) - Mul(a, s)) == a
    ensures Mul(c, Mul(c, b) - Mul(a, s)) - Mul(Mul(a, c) + Mul(s, b), -s) == b
  {
    assert c * (s * b + a * c) == c * s * b + c * c * a;
    assert s * (c * b - a * s) == s * c * b - s * s * a;
    assert c * (c * b - a * s) == c * c * b - c * s * a;
    assert s * (s * b + a * c) == s * s * b + s * c * a;
    assert c * (a * c - s * b) == c * c * a - c * s * b;
    assert s * (c * b + a * s) == s * c * b + s * s * a;
    assert c * (c * b + a * s) == c * c * b + c * s * a;
    assert s * (a * c - s * b) == s * c * a - s * s * b;
    assert c * (a * c + s * b) == c * c * a + c * s * b;
    assert s * (a * c + s * b) == s * c * a + s * s * b;
    assert c * c * a + s * s * a == (c * c + s * s) * a;
    assert c * c * b + s * s * b == (c * c + s * s) * b;
  }

  /** Round trip of the saving rotation about X: turning by an angle and
      then by the opposite angle restores the matrix. */
  lemma RotXInverse(m: seq<real>, s: real, c: real)
    requires |m| == 16 && Mul(s, s) + Mul(c, c) == 1.0
    ensures RotX(RotX(m, s, c), -s, c) == m
  {
    MixBack(m[4], m[8], s, c);
    MixBack(m[5], m[9], s, c);
    MixBack(m[6], m[10], s, c);
    MixBack(m[7], m[11], s, c);
    Ext16(RotX(RotX(m, s, c), -s, c), m);
  }

  /** Round trip of the saving rotation about Y. */
  lemma RotYInverse(m: seq<real>, s: real, c: real)
    requires |m| == 16 && Mul(s, s) + Mul(c, c) == 1.0
    ensures RotY(RotY(m, s, c), -s, c) == m
  {
    MixBack(m[0], m[8], s, c);
    MixBack(m[1], m[9], s, c);
    MixBack(m[2], m[10], s, c);
    MixBack(m[3], m[11], s, c);
    Ext16(RotY(RotY(m, s, c), -s, c), m);
  }

  /** Round trip of the saving rotation about Z. */
  lemma RotZInverse(m: seq<real>, s: real, c: real)
    requires |m| == 16 && Mul(s, s) + Mul(c, c) == 1.0
    ensures RotZ(RotZ(m, s, c), -s, c) == m
  {
    MixBack(m[0], m[4], s, c);
    MixBack(m[1], m[5], s, c);
    MixBack(m[2], m[6], s, c);
    MixBack(m[3], m[7], s, c);
    Ext16(RotZ(RotZ(m, s, c), -s, c), m);
  }

  /** Each rotation leaves the rows it does not mix untouched: X keeps rows
      0 and 3, Y keeps rows 1 and 3, Z keeps rows 2 and 3. */
  lemma RotationsKeepOtherRows(m: seq<real>, s: real, c: real)
    requires |m| == 16
    ensures RotX(m, s, c)[..4] == m[..4] && RotX(m, s, c)[12..] == m[12..]
    ensures RotY(m, s, c)[4..8] == m[4..8] && RotY(m, s, c)[12..] == m[12..]
    ensures RotZ(m, s, c)[8..] == m[8..]
  {
  }

  /** The shared library's RotateX by a quarter turn (s = 1, c = 0) on the
      identity leaves rows 1 and 2 as (0, 0, 1, 0) and (0, 0, -1, 0): the
      rows are opposite, the matrix is singular, and turning back by the
      opposite angle does not restore the identity. The saving version
      turns the identity into a proper quarter turn and back. */
  lemma AsWrittenCollapses()
    ensures RotXAsWritten(Identity, 1.0, 0.0)[4..8] == [0.0, 0.0, 1.0, 0.0]
    ensures RotXAsWritten(Identity, 1.0, 0.0)[8..12] == [0.0, 0.0, -1.0, 0.0]
    ensures RotXAsWritten(RotXAsWritten(Identity, 1.0, 0.0), -1.0, 0.0) != Identity
    ensures RotX(Identity, 1.0, 0.0)[4..8] == [0.0, 0.0, 1.0, 0.0]
    ensures RotX(Identity, 1.0, 0.0)[8..12] == [0.0, -1.0, 0.0, 0.0]
    ensures RotX(RotX(Identity, 1.0, 0.0), -1.0, 0.0) == Identity
  {
    var w := RotXAsWritten(Identity, 1.0, 0.0);
    assert w[4..8] == [0.0, 0.0, 1.0, 0.0];
    assert w[8..12] == [0.0, 0.0, -1.0, 0.0];
    assert RotXAsWritten(w, -1.0, 0.0)[10] == 1.0;
    assert RotX(Identity, 1.0, 0.0)[4..8] == [0.0, 0.0, 1.0, 0.0];
    assert RotX(Identity, 1.0, 0.0)[8..12] == [0.0, -1.0, 0.0, 0.0];
    RotXInverse(Identity, 1.0, 0.0);
  }

  /** Sines and cosines of the three instance angles (ang[0], ang[1], ang[2]). */
  datatype Angles = Angles(sx: real, cx: real, sy: real, cy: real, sz: real, cz: real)

  /** The instance matrix built by the SA1 and SA2 loaders with the shared
      library's rotations: with the ROTATE_XYZ evaluation flag (0x20) the
      turns are applied Z, Y, X; otherwise Y, X, Z. */
  function LoaderMatrix(evalflags: bv32, t: Angles): seq<real>
  {
    if evalflags & 0x20 != 0 then
      RotXAsWritten(RotYAsWritten(RotZAsWritten(Identity, t.sz, t.cz), t.sy, t.cy), t.sx, t.cx)
    else RotZAsWritten(RotXAsWritten(RotYAsWritten(Identity, t.sy, t.cy), t.sx, t.cx), t.sz, t.cz)
  }

  /** The matrix the loaders evidently intend: the same turns in the same
      orders, each computed from the old rows. */
  function IntendedLoaderMatrix(evalflags: bv32, t: Angles): seq<real>
  {
    if evalflags & 0x20 != 0 then RotX(RotY(RotZ(Identity, t.sz, t.cz), t.sy, t.cy), t.sx, t.cx)
    else RotZ(RotX(RotY(Identity, t.sy, t.cy), t.sx, t.cx), t.sz, t.cz)
  }

  /** The instance matrix built by the standalone converter: with 0x20 the
      turns are applied X, Y, Z; otherwise Z, X, Y. */
  function StandaloneMatrix(evalflags: bv32, t: Angles): seq<real>
  {
    if evalflags & 0x20 != 0 then RotZ(RotY(RotX(Identity, t.sx, t.cx), t.sy, t.cy), t.sz, t.cz)
    else RotY(RotX(RotZ(Identity, t.sz, t.cz), t.sx, t.cx), t.sy, t.cy)
  }

  /** Applies the loaders' rotation order to a fresh identity matrix, with
      the shared library's rotations. */
  method BuildLoaderMatrix(evalflags: bv32, t: Angles) returns (m: array<real>)
    ensures fresh(m) && m.Length == 16
    ensures m[..] == LoaderMatrix(evalflags, t)
  {
    m := new real[16](i requires 0 <= i < 16 => Identity[i]);
    assert m[..] == Identity;
    if evalflags & 0x20 != 0 {
      RotateZAsWritten(m, t.sz, t.cz);
      RotateYAsWritten(m, t.sy, t.cy);
      RotateXAsWritten(m, t.sx, t.cx);
    } else {
      RotateYAsWritten(m, t.sy, t.cy);
      RotateXAsWritten(m, t.sx, t.cx);
      RotateZAsWritten(m, t.sz, t.cz);
    }
  }

  /** Applies the standalone converter's rotation order to a fresh identity. */
  method BuildStandaloneMatrix(evalflags: bv32, t: Angles) returns (m: array<real>)
    ensures fresh(m) && m.Length == 16
    ensures m[..] == StandaloneMatrix(evalflags, t)
  {
    m := new real[16](i requires 0 <= i < 16 => Identity[i]);
    assert m[..] == Identity;
    if evalflags & 0x20 != 0 {
      RotateX(m, t.sx, t.cx);
      RotateY(m, t.sy, t.cy);
      RotateZ(m, t.sz, t.cz);
    } else {
      RotateZ(m, t.sz, t.cz);
      RotateX(m, t.sx, t.cx);
      RotateY(m, t.sy, t.cy);
    }
  }

  /** The shared library's quarter turns (s = 1, c = 0) of the identity in
      the ROTATE_XYZ order Z, Y, X, one matrix after the other. */
  lemma QuarterTurnsZyx()
    ensures RotZAsWritten(Identity, 1.0, 0.0)
         == [0.0, 1.0, 0.0, 0.0, 0.0, -1.0, 0.0, 0.0, 0.0, 0.0, 1.0, 0.0, 0.0, 0.0, 0.0, 1.0]
    ensures RotYAsWritten([0.0, 1.0, 0.0, 0.0, 0.0, -1.0, 0.0, 0.0, 0.0, 0.0, 1.0, 0.0, 0.0, 0.0, 0.0, 1.0], 1.0, 0.0)
         == [0.0, 0.0, -1.0, 0.0, 0.0, -1.0, 0.0, 0.0, 0.0, 0.0, -1.0, 0.0, 0.0, 0.0, 0.0, 1.0]
    ensures RotXAsWritten([0.0, 0.0, -1.0, 0.0, 0.0, -1.0, 0.0, 0.0, 0.0, 0.0, -1.0, 0.0, 0.0, 0.0, 0.0, 1.0], 1.0, 0.0)
         == [0.0, 0.0, -1.0, 0.0, 0.0, 0.0, -1.0, 0.0, 0.0, 0.0, 1.0, 0.0, 0.0, 0.0, 0.0, 1.0]
  {
  }

  /** The same quarter turns in the default order Y, X, Z. */
  lemma QuarterTurnsYxz()
    ensures RotYAsWritten(Identity, 1.0, 0.0)
         == [0.0, 0.0, -1.0, 0.0, 0.0, 1.0, 0.0, 0.0, 0.0, 0.0, -1.0, 0.0, 0.0, 0.0, 0.0, 1.0]
    ensures RotXAsWritten([0.0, 0.0, -1.0, 0.0, 0.0, 1.0, 0.0, 0.0, 0.0, 0.0, -1.0, 0.0, 0.0, 0.0, 0.0, 1.0], 1.0, 0.0)
         == [0.0, 0.0, -1.0, 0.0, 0.0, 0.0, -1.0, 0.0, 0.0, 0.0, 1.0, 0.0, 0.0, 0.0, 0.0, 1.0]
    ensures RotZAsWritten([0.0, 0.0, -1.0, 0.0, 0.0, 0.0, -1.0, 0.0, 0.0, 0.0, 1.0, 0.0, 0.0, 0.0, 0.0, 1.0], 1.0, 0.0)
         == [0.0, 0.0, -1.0, 0.0, 0.0, 0.0, 1.0, 0.0, 0.0, 0.0, 1.0, 0.0, 0.0, 0.0, 0.0, 1.0]
  {
  }

  /** The evaluation flag matters: with all three angles a quarter turn the
      two orders of the loaders give different matrices (entry (1, 2) is -1
      with ROTATE_XYZ and 1 without), and so do the two orders of the
      standalone converter. */
  lemma OrderMatters()
    ensures LoaderMatrix(0x20, Angles(1.0, 0.0, 1.0, 0.0, 1.0, 0.0))[6] == -1.0
    ensures LoaderMatrix(0, Angles(1.0, 0.0, 1.0, 0.0, 1.0, 0.0))[6] == 1.0
    ensures StandaloneMatrix(0x20, Angles(1.0, 0.0, 1.0, 0.0, 1.0, 0.0))
         != StandaloneMatrix(0, Angles(1.0, 0.0, 1.0, 0.0, 1.0, 0.0))
  {
    var t := Angles(1.0, 0.0, 1.0, 0.0, 1.0, 0.0);
    QuarterTurnsZyx();
    QuarterTurnsYxz();
    assert StandaloneMatrix(0x20, t)[0] == 0.0;
    assert StandaloneMatrix(0, t)[0] == -1.0;
  }

  /** A zero turn (s = 0, c = 1) of the shared library's rotations leaves
      the matrix as it is. */
  lemma ZeroTurnAsWritten(m: seq<real>)
    requires |m| == 16
    ensures RotXAsWritten(m, 0.0, 1.0) == m
    ensures RotYAsWritten(m, 0.0, 1.0) == m
    ensures RotZAsWritten(m, 0.0, 1.0) == m
  {
    Ext16(RotXAsWritten(m, 0.0, 1.0), m);
    Ext16(RotYAsWritten(m, 0.0, 1.0), m);
    Ext16(RotZAsWritten(m, 0.0, 1.0), m);
  }

  /** When only one of the three angles turns, the evaluation flag does not
      matter: both orders of the loaders give that one rotation of the
      identity. */
  lemma OneTurnOrderFree(evalflags: bv32, t: Angles)
    requires (t.sy == 0.0 && t.cy == 1.0 && t.sz == 0.0 && t.cz == 1.0)
          || (t.sx == 0.0 && t.cx == 1.0 && t.sz == 0.0 && t.cz == 1.0)
          || (t.sx == 0.0 && t.cx == 1.0 && t.sy == 0.0 && t.cy == 1.0)
    ensures LoaderMatrix(evalflags, t) == LoaderMatrix(0, t)
    ensures t.sy == 0.0 && t.cy == 1.0 && t.sz == 0.0 && t.cz == 1.0
            ==> LoaderMatrix(evalflags, t) == RotXAsWritten(Identity, t.sx, t.cx)
    ensures t.sx == 0.0 && t.cx == 1.0 && t.sz == 0.0 && t.cz == 1.0
            ==> LoaderMatrix(evalflags, t) == RotYAsWritten(Identity, t.sy, t.cy)
    ensures t.sx == 0.0 && t.cx == 1.0 && t.sy == 0.0 && t.cy == 1.0
            ==> LoaderMatrix(evalflags, t) == RotZAsWritten(Identity, t.sz, t.cz)
  {
    ZeroTurnAsWritten(Identity);
    if t.sy == 0.0 && t.cy == 1.0 && t.sz == 0.0 && t.cz == 1.0 {
      ZeroTurnAsWritten(RotXAsWritten(Identity, t.sx, t.cx));
    } else if t.sx == 0.0 && t.cx == 1.0 && t.sz == 0.0 && t.cz == 1.0 {
      ZeroTurnAsWritten(RotYAsWritten(Identity, t.sy, t.cy));
    } else {
      ZeroTurnAsWritten(RotZAsWritten(Identity, t.sz, t.cz));
    }
  }

  /** The shared library's rotations compute the first mixed row and keep
      the untouched rows exactly as the saving ones do; only the second mixed
      row differs, and not at all when the sine is zero. */
  lemma AsWrittenAgrees(m: seq<real>, s: real, c: real)
    requires |m| == 16
    ensures RotXAsWritten(m, s, c)[..8] == RotX(m, s, c)[..8]
    ensures RotXAsWritten(m, s, c)[12..] == RotX(m, s, c)[12..]
    ensures RotYAsWritten(m, s, c)[..8] == RotY(m, s, c)[..8]
    ensures RotYAsWritten(m, s, c)[12..] == RotY(m, s, c)[12..]
    ensures RotZAsWritten(m, s, c)[..4] == RotZ(m, s, c)[..4]
    ensures RotZAsWritten(m, s, c)[8..] == RotZ(m, s, c)[8..]
    ensures s == 0.0 ==> RotXAsWritten(m, s, c) == RotX(m, s, c)
    ensures s == 0.0 ==> RotYAsWritten(m, s, c) == RotY(m, s, c)
    ensures s == 0.0 ==> RotZAsWritten(m, s, c) == RotZ(m, s, c)
  {
    if s == 0.0 {
      Ext16(RotXAsWritten(m, s, c), RotX(m, s, c));
      Ext16(RotYAsWritten(m, s, c), RotY(m, s, c));
      Ext16(RotZAsWritten(m, s, c), RotZ(m, s, c));
    }
  }

  /** With a zero sine the shared library's rotations and the saving ones
      agree. */
  lemma ZeroSineAgrees(m: seq<real>, c: real)
    requires |m| == 16
    ensures RotXAsWritten(m, 0.0, c) == RotX(m, 0.0, c)
    ensures RotYAsWritten(m, 0.0, c) == RotY(m, 0.0, c)
    ensures RotZAsWritten(m, 0.0, c) == RotZ(m, 0.0, c)
  {
    AsWrittenAgrees(m, 0.0, c);
  }

  /** Without any non-zero sine the loaders build the intended matrix. */
  lemma LoaderMatchesIntendedWithoutTurns(evalflags: bv32, t: Angles)
    requires t.sx == 0.0 && t.sy == 0.0 && t.sz == 0.0
    ensures LoaderMatrix(evalflags, t) == IntendedLoaderMatrix(evalflags, t)
  {
    if evalflags & 0x20 != 0 {
      var z := RotZ(Identity, 0.0, t.cz);
      var zy := RotY(z, 0.0, t.cy);
      ZeroSineAgrees(Identity, t.cz);
      ZeroSineAgrees(z, t.cy);
      ZeroSineAgrees(zy, t.cx);
    } else {
      var y := RotY(Identity, 0.0, t.cy);
      var yx := RotX(y, 0.0, t.cx);
      ZeroSineAgrees(Identity, t.cy);
      ZeroSineAgrees(y, t.cx);
      ZeroSineAgrees(yx, t.cz);
    }
  }

  /** The steps of a single quarter turn about X in the default order, as
      the loaders compute it and as intended. */
  lemma QuarterTurnX()
    ensures RotYAsWritten(Identity, 0.0, 1.0) == Identity
    ensures RotXAsWritten(Identity, 1.0, 0.0)
         == [1.0, 0.0, 0.0, 0.0, 0.0, 0.0, 1.0, 0.0, 0.0, 0.0, -1.0, 0.0, 0.0, 0.0, 0.0, 1.0]
    ensures RotZAsWritten([1.0, 0.0, 0.0, 0.0, 0.0, 0.0, 1.0, 0.0, 0.0, 0.0, -1.0, 0.0, 0.0, 0.0, 0.0, 1.0], 0.0, 1.0)
         == [1.0, 0.0, 0.0, 0.0, 0.0, 0.0, 1.0, 0.0, 0.0, 0.0, -1.0, 0.0, 0.0, 0.0, 0.0, 1.0]
    ensures RotY(Identity, 0.0, 1.0) == Identity
    ensures RotX(Identity, 1.0, 0.0)
         == [1.0, 0.0, 0.0, 0.0, 0.0, 0.0, 1.0, 0.0, 0.0, -1.0, 0.0, 0.0, 0.0, 0.0, 0.0, 1.0]
    ensures RotZ([1.0, 0.0, 0.0, 0.0, 0.0, 0.0, 1.0, 0.0, 0.0, -1.0, 0.0, 0.0, 0.0, 0.0, 0.0, 1.0], 0.0, 1.0)
         == [1.0, 0.0, 0.0, 0.0, 0.0, 0.0, 1.0, 0.0, 0.0, -1.0, 0.0, 0.0, 0.0, 0.0, 0.0, 1.0]
  {
  }

  /** With a single quarter turn about X and no ROTATE_XYZ flag the loaders
      miss the intended matrix: row 2 becomes (0, 0, -1, 0), the negated
      row 1, where the turn gives (0, -1, 0, 0). */
  lemma LoaderMissesIntended()
    ensures LoaderMatrix(0, Angles(1.0, 0.0, 0.0, 1.0, 0.0, 1.0))[8..12] == [0.0, 0.0, -1.0, 0.0]
    ensures IntendedLoaderMatrix(0, Angles(1.0, 0.0, 0.0, 1.0, 0.0, 1.0))[8..12] == [0.0, -1.0, 0.0, 0.0]
  {
    QuarterTurnX();
  }
}
