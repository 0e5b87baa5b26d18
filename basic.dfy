/** The "basic" meshset encoding read by every revision of the converter,
    as the stream of corners it produces. A meshset holds a primitive type
    and a material id packed into one Uint16, a primitive count, and a flat
    Sint16 stream: triangles take three entries, quads four, and a strip
    takes a header entry (a 15-bit count plus a winding bit) followed by
    its points. Each corner is the pair (point index, UV index) that the
    decoders pass to their IndexVertex routine. */
module Basic {
  import opened Types
  import Salvl

  /** NJS_TEX: one UV pair of Sint16. */
  datatype UV = UV(u: Sint16, v: Sint16)

  /** NJS_MESHSET: `meshes` is the index stream, `vertuv` the optional UV array. */
  datatype Meshset = Meshset(typeMatId: Uint16, nbMesh: Uint16, meshes: seq<Sint16>, vertuv: Option<seq<UV>>)

  /** NJS_MATERIAL: the diffuse colour bytes, the attribute flags and the texture id. */
  datatype Material = Material(r: byte, g: byte, b: byte, attrflags: bv32, texId: nat)

  /** NJS_MODEL: points and normals are indexed by the stream entries. */
  datatype Model = Model(points: seq<Vec3>, normals: seq<Vec3>, meshsets: seq<Meshset>, mats: seq<Material>)

  /** NJD_FLAG_FLIP_U, NJD_FLAG_FLIP_V and NJD_FLAG_USE_TEXTURE. */
  const FlagFlipU: bv32 := 0x40000
  const FlagFlipV: bv32 := 0x20000
  const FlagUseTexture: bv32 := 0x200000

  /** type_matId & 0x3FFF */
  function MaterialId(ms: Meshset): (id: int)
    ensures 0 <= id < 0x4000
  {
    ms.typeMatId % 0x4000
  }

  /** type_matId >> 14: 0 triangles, 1 quads, 2 unused, 3 strips. */
  function PolyType(ms: Meshset): (t: int)
    ensures 0 <= t < 4
    ensures ms.typeMatId == t * 0x4000 + MaterialId(ms)
  {
    ms.typeMatId / 0x4000
  }

  /** The pair handed to IndexVertex: a point index and a UV index. */
  datatype Corner = Corner(point: int, uv: int)

  /** One decoded primitive: its corners, the cursor after it and the UV
      counter after it. */
  datatype Step = Step(corners: seq<Corner>, next: nat, uv: int)

  /** Whether strip triangle `l` keeps the stream order. The decoder toggles
      the winding bit before each triangle and keeps the order when the
      toggled bit is set: triangle 0 keeps it iff the header bit is clear,
      and each triangle does the opposite of the one before. */
  function Straight(bit: bool, l: nat): bool
  {
    if l == 0 then !bit else !Straight(bit, l - 1)
  }

  /** With the header bit clear the even triangles keep the order and the
      odd ones swap their first two corners; a set bit is the reverse. */
  lemma {:induction false} StraightParity(bit: bool, l: nat)
    ensures Straight(bit, l) == (if l % 2 == 0 then !bit else bit)
  {
    if l > 0 {
      StraightParity(bit, l - 1);
    }
  }

  /** Strip triangle `l`, reading stream entries base+l .. base+l+2 and UV
      indices j+l .. j+l+2. */
  function StripTri(s: seq<Sint16>, base: nat, l: nat, j: int, straight: bool): seq<Corner>
    requires base + l + 2 < |s|
  {
    if straight then [Corner(s[base + l], j + l), Corner(s[base + l + 1], j + l + 1), Corner(s[base + l + 2], j + l + 2)]
    else [Corner(s[base + l + 1], j + l + 1), Corner(s[base + l], j + l), Corner(s[base + l + 2], j + l + 2)]
  }

  /** Strip triangles l, l+1, ... while l < n - 2. */
  function StripFrom(s: seq<Sint16>, base: nat, bit: bool, j: int, l: nat, n: nat): seq<Corner>
    requires l + 2 >= n || base + n <= |s|
    decreases n - l
  {
    if l + 2 >= n then []
    else StripTri(s, base, l, j, Straight(bit, l)) + StripFrom(s, base, bit, j, l + 1, n)
  }

  /** The Uint16 view of a Sint16 stream entry. */
  function Unsigned16(e: Sint16): (u: Uint16)
    ensures u % 0x1_0000 == e % 0x1_0000
  {
    if e < 0 then e + 0x1_0000 else e
  }

  /** The header of a strip: the 15-bit count (first & 0x7FFF) and the
      winding bit (first & 0x8000) of the Uint16 view of the entry. */
  function StripCount(e: Sint16): (n: nat)
    ensures n < 0x8000
    ensures n == Unsigned16(e) % 0x8000
  {
    var u := Unsigned16(e);
    if u >= 0x8000 then u - 0x8000 else u
  }

  function StripBit(e: Sint16): bool
  {
    Unsigned16(e) >= 0x8000
  }

  /** max(x, 0) */
  function Max0(x: int): nat
  {
    if x < 0 then 0 else x
  }

  /** Decodes the primitive at `cur` with UV counter `j`; None when it would
      read past the end of the stream. `sa2Quads` selects the SA2 loader's
      quad corners, which differ from the other revisions. */
  function Primitive(kind: int, s: seq<Sint16>, cur: nat, j: int, sa2Quads: bool): Option<Step>
  {
    if kind == 0 then
      if cur + 3 <= |s| then
        Some(Step([Corner(s[cur], j), Corner(s[cur + 1], j + 1), Corner(s[cur + 2], j + 2)], cur + 3, j + 3))
      else None
    else if kind == 1 then
      if cur + 4 <= |s| then
        var p0, p1, p2, p3 := s[cur], s[cur + 1], s[cur + 2], s[cur + 3];
        var cs := if sa2Quads then
                    [Corner(p2, j + 2), Corner(p1, j + 1), Corner(p3, j + 2),
                     Corner(p2, j + 2), Corner(p1, j + 1), Corner(p3, j + 3)]
                  else
                    [Corner(p0, j), Corner(p1, j + 1), Corner(p2, j + 2),
                     Corner(p2, j + 2), Corner(p1, j + 1), Corner(p3, j + 3)];
        Some(Step(cs, cur + 4, j + 4))
      else None
    else if kind == 3 then
      if cur < |s| then
        var n := StripCount(s[cur]);
        if n >= 3 && cur + 1 + n > |s| then None
        else Some(Step(StripFrom(s, cur + 1, StripBit(s[cur]), j, 0, n), cur + 1 + n, j + Max0(n - 2) + 2))
      else None
    else
      Some(Step([], cur, j))
  }

  /** The corners of `count` primitives starting at `cur`. */
  function CornersFrom(kind: int, s: seq<Sint16>, cur: nat, j: int, count: nat, sa2Quads: bool): Option<seq<Corner>>
    decreases count
  {
    if count == 0 then Some([])
    else match Primitive(kind, s, cur, j, sa2Quads)
      case None => None
      case Some(st) =>
        match CornersFrom(kind, s, st.next, st.uv, count - 1, sa2Quads)
        case None => None
        case Some(rest) => Some(st.corners + rest)
  }

  /** All corners of a meshset, in the order the decoders emit them. */
  function MeshsetCorners(ms: Meshset, sa2Quads: bool): Option<seq<Corner>>
  {
    CornersFrom(PolyType(ms), ms.meshes, 0, 0, ms.nbMesh, sa2Quads)
  }

  /** What each primitive produces: a triangle three corners, a quad six, a
      strip of count n 3·max(n - 2, 0), the unused type none. The cursor
      moves by 3, 4, n + 1 or 0 and the UV counter by 3, 4, max(n - 2, 0) + 2
      or 0. */
  lemma PrimitiveShape(kind: int, s: seq<Sint16>, cur: nat, j: int, sa2Quads: bool)
    requires 0 <= kind < 4
    requires Primitive(kind, s, cur, j, sa2Quads).Some?
    ensures var st := Primitive(kind, s, cur, j, sa2Quads).value;
            (kind == 0 ==> |st.corners| == 3 && st.next == cur + 3 && st.uv == j + 3) &&
            (kind == 1 ==> |st.corners| == 6 && st.next == cur + 4 && st.uv == j + 4) &&
            (kind == 2 ==> |st.corners| == 0 && st.next == cur && st.uv == j) &&
            (kind == 3 ==> var n := StripCount(s[cur]);
                           |st.corners| == 3 * Max0(n - 2) && st.next == cur + 1 + n &&
                           st.uv == j + Max0(n - 2) + 2)
  {
    if kind == 3 {
      var n := StripCount(s[cur]);
      StripLength(s, cur + 1, StripBit(s[cur]), j, 0, n);
    }
  }

  /** A strip run from triangle l yields three corners per remaining triangle. */
  lemma {:induction false} StripLength(s: seq<Sint16>, base: nat, bit: bool, j: int, l: nat, n: nat)
    requires l + 2 >= n || base + n <= |s|
    ensures |StripFrom(s, base, bit, j, l, n)| == 3 * Max0(n - 2 - l)
    decreases n - l
  {
    if l + 2 < n {
      StripLength(s, base, bit, j, l + 1, n);
    }
  }

  /** The corners after the first k triangles. */
  function DropTriangles(cs: seq<Corner>, k: nat): seq<Corner>
  {
    if k == 0 || |cs| < 3 then cs else DropTriangles(cs[3..], k - 1)
  }

  /** Triangle l + k of a strip is its k-th triangle, and it alternates its
      winding: it is (l+k, l+k+1, l+k+2) when Straight(bit, l + k) and
      (l+k+1, l+k, l+k+2) otherwise. */
  lemma {:induction false} StripTriangleAt(s: seq<Sint16>, base: nat, bit: bool, j: int, l: nat, n: nat, k: nat)
    requires base + n <= |s| && l + k + 2 < n
    ensures |DropTriangles(StripFrom(s, base, bit, j, l, n), k)| >= 3
    ensures DropTriangles(StripFrom(s, base, bit, j, l, n), k)[..3] == StripTri(s, base, l + k, j, Straight(bit, l + k))
    decreases k
  {
    var head := StripTri(s, base, l, j, Straight(bit, l));
    var rest := StripFrom(s, base, bit, j, l + 1, n);
    assert StripFrom(s, base, bit, j, l, n) == head + rest;
    if k > 0 {
      StripTriangleAt(s, base, bit, j, l + 1, n, k - 1);
      assert (head + rest)[3..] == rest;
    }
  }

  /** Every decoded meshset yields whole triangles. */
  lemma {:induction false} CornersTriples(kind: int, s: seq<Sint16>, cur: nat, j: int, count: nat, sa2Quads: bool)
    requires 0 <= kind < 4
    requires CornersFrom(kind, s, cur, j, count, sa2Quads).Some?
    ensures |CornersFrom(kind, s, cur, j, count, sa2Quads).value| % 3 == 0
    decreases count
  {
    if count > 0 {
      var st := Primitive(kind, s, cur, j, sa2Quads).value;
      PrimitiveShape(kind, s, cur, j, sa2Quads);
      CornersTriples(kind, s, st.next, st.uv, count - 1, sa2Quads);
    }
  }

  /** The SA2 loader's decoding agrees with the SA1 loader's on every
      primitive type but quads. */
  lemma {:induction false} OnlyQuadsDiffer(kind: int, s: seq<Sint16>, cur: nat, j: int, count: nat)
    requires kind != 1
    ensures CornersFrom(kind, s, cur, j, count, true) == CornersFrom(kind, s, cur, j, count, false)
    decreases count
  {
    if count > 0 {
      var st := Primitive(kind, s, cur, j, false);
      if st.Some? {
        OnlyQuadsDiffer(kind, s, st.value.next, st.value.uv, count - 1);
      }
    }
  }

  /** A quad of the SA1 loader and the standalone converter covers the two
      triangles (p0, p1, p2) and (p2, p1, p3); the SA2 loader instead emits
      (p2, p1, p3) twice, with UV indices (j+2, j+1, j+2) then (j+2, j+1, j+3). */
  lemma QuadCorners(s: seq<Sint16>, cur: nat, j: int)
    requires cur + 4 <= |s|
    ensures Primitive(1, s, cur, j, false).value.corners ==
              [Corner(s[cur], j), Corner(s[cur + 1], j + 1), Corner(s[cur + 2], j + 2),
               Corner(s[cur + 2], j + 2), Corner(s[cur + 1], j + 1), Corner(s[cur + 3], j + 3)]
    ensures var cs := Primitive(1, s, cur, j, true).value.corners;
            cs[..3] == [Corner(s[cur + 2], j + 2), Corner(s[cur + 1], j + 1), Corner(s[cur + 3], j + 2)] &&
            cs[3..] == [Corner(s[cur + 2], j + 2), Corner(s[cur + 1], j + 1), Corner(s[cur + 3], j + 3)]
  {
  }

  /** Every point index a meshset emits is an entry of its stream. */
  lemma {:induction false} CornersFromStream(kind: int, s: seq<Sint16>, cur: nat, j: int, count: nat, sa2Quads: bool)
    requires CornersFrom(kind, s, cur, j, count, sa2Quads).Some?
    ensures forall c :: c in CornersFrom(kind, s, cur, j, count, sa2Quads).value ==> c.point in s
    decreases count
  {
    if count > 0 {
      var st := Primitive(kind, s, cur, j, sa2Quads).value;
      CornersFromStream(kind, s, st.next, st.uv, count - 1, sa2Quads);
      if kind == 3 {
        StripFromStream(s, cur + 1, StripBit(s[cur]), j, 0, StripCount(s[cur]));
      }
    }
  }

  lemma {:induction false} StripFromStream(s: seq<Sint16>, base: nat, bit: bool, j: int, l: nat, n: nat)
    requires l + 2 >= n || base + n <= |s|
    ensures forall c :: c in StripFrom(s, base, bit, j, l, n) ==> c.point in s
    decreases n - l
  {
    if l + 2 < n {
      StripFromStream(s, base, bit, j, l + 1, n);
    }
  }

  /** A corner the decoders may use: its point and normal exist and, when
      the meshset has UVs, so does its UV. Reading outside these arrays is
      undefined in the decoders. */
  predicate CornerOk(model: Model, ms: Meshset, c: Corner)
  {
    0 <= c.point < |model.points| && c.point < |model.normals| &&
    (ms.vertuv.Some? ==> 0 <= c.uv < |ms.vertuv.value|)
  }

  /** Every corner of a run is usable. */
  predicate CornersOk(model: Model, ms: Meshset, cs: seq<Corner>)
    decreases |cs|
  {
    cs == [] || (CornerOk(model, ms, cs[0]) && CornersOk(model, ms, cs[1..]))
  }

  /** CornersOk is the pointwise condition, and it splits over concatenation. */
  lemma {:induction false} CornersOkMeaning(model: Model, ms: Meshset, cs: seq<Corner>)
    ensures CornersOk(model, ms, cs) <==> forall k :: 0 <= k < |cs| ==> CornerOk(model, ms, cs[k])
    decreases |cs|
  {
    if cs != [] {
      CornersOkMeaning(model, ms, cs[1..]);
      assert forall k :: 1 <= k < |cs| ==> cs[1..][k - 1] == cs[k];
    }
  }

  lemma {:induction false} CornersOkAppend(model: Model, ms: Meshset, a: seq<Corner>, b: seq<Corner>)
    ensures CornersOk(model, ms, a + b) <==> CornersOk(model, ms, a) && CornersOk(model, ms, b)
    decreases |a|
  {
    if a != [] {
      assert (a + b)[0] == a[0];
      assert (a + b)[1..] == a[1..] + b;
      CornersOkAppend(model, ms, a[1..], b);
    } else {
      assert a + b == b;
    }
  }

  /** A meshset the decoders can read: the stream holds every primitive and
      every corner is usable. */
  predicate MeshsetOk(model: Model, ms: Meshset, sa2Quads: bool)
  {
    MeshsetCorners(ms, sa2Quads).Some? && CornersOk(model, ms, MeshsetCorners(ms, sa2Quads).value)
  }

  /** Every meshset of a model can be read. */
  predicate ModelOk(model: Model, sa2Quads: bool)
  {
    forall i :: 0 <= i < |model.meshsets| ==> MeshsetOk(model, model.meshsets[i], sa2Quads)
  }


  /** The material state of a mesh part. */
  datatype PartMaterial = PartMaterial(matflags: bv32, texture: Option<nat>, diffuse: int)

  /** The default material state of a fresh part. */
  const DefaultMaterial: PartMaterial := PartMaterial(0, None, 0xB2B2B2)

  /** The material a meshset gives its part: the material's flags, its
      texture only when USE_TEXTURE is set, and its diffuse colour packed as
      r << 16 | g << 8 | b; an id past the material list leaves the part's
      material as it was. */
  function SelectMaterial(model: Model, ms: Meshset, current: PartMaterial): PartMaterial
  {
    var id := MaterialId(ms);
    if id < |model.mats| then
      var m := model.mats[id];
      PartMaterial(m.attrflags,
                   if m.attrflags & FlagUseTexture != 0 then Some(m.texId) else None,
                   m.r * 0x1_0000 + m.g * 0x100 + m.b)
    else current
  }

  /** The packed diffuse colour fits 24 bits and unpacks to the material's
      bytes; the texture is present exactly when USE_TEXTURE is set. */
  lemma SelectMaterialFacts(model: Model, ms: Meshset, current: PartMaterial)
    ensures var r := SelectMaterial(model, ms, current);
            MaterialId(ms) < |model.mats| ==>
              var m := model.mats[MaterialId(ms)];
              r.matflags == m.attrflags &&
              0 <= r.diffuse < 0x100_0000 &&
              r.diffuse / 0x1_0000 == m.r && (r.diffuse / 0x100) % 0x100 == m.g && r.diffuse % 0x100 == m.b &&
              (r.texture.Some? <==> m.attrflags & FlagUseTexture != 0) &&
              (r.texture.Some? ==> r.texture.value == m.texId)
    ensures MaterialId(ms) >= |model.mats| ==> SelectMaterial(model, ms, current) == current
  {
  }

  /** The texture coordinate of a UV: u/256 and v/256, each halved when the
      part's material mirrors that axis. */
  function TexCoord(uv: UV, matflags: bv32): Vec2
  {
    var x := uv.u as real / 256.0;
    var y := uv.v as real / 256.0;
    Vec2(if matflags & FlagFlipU != 0 then x * 0.5 else x,
         if matflags & FlagFlipV != 0 then y * 0.5 else y)
  }

  /** The vertex SA1LVL_IndexVertex and SA2LVL_IndexVertexBasic build for a
      corner: position and normal of the point, the UV when the meshset has
      UVs, every other field at its default. */
  function CornerVertex(model: Model, ms: Meshset, matflags: bv32, c: Corner): (v: Salvl.Vertex)
    requires CornerOk(model, ms, c)
  {
    Salvl.DefaultVertex.(pos := model.points[c.point], nor := model.normals[c.point],
                         tex := if ms.vertuv.Some? then TexCoord(ms.vertuv.value[c.uv], matflags) else Zero2)
  }

  /** The vertices of a run of corners. */
  function CornerVertices(model: Model, ms: Meshset, matflags: bv32, cs: seq<Corner>): (vs: seq<Salvl.Vertex>)
    requires CornersOk(model, ms, cs)
    ensures |vs| == |cs|
    decreases |cs|
  {
    if cs == [] then [] else [CornerVertex(model, ms, matflags, cs[0])] + CornerVertices(model, ms, matflags, cs[1..])
  }

  /** The vertices of two runs are the vertices of the first, then those of the second. */
  lemma {:induction false} CornerVerticesAppend(model: Model, ms: Meshset, matflags: bv32, a: seq<Corner>, b: seq<Corner>)
    requires CornersOk(model, ms, a) && CornersOk(model, ms, b)
    ensures CornersOk(model, ms, a + b)
    ensures CornerVertices(model, ms, matflags, a + b) ==
              CornerVertices(model, ms, matflags, a) + CornerVertices(model, ms, matflags, b)
    decreases |a|
  {
    CornersOkAppend(model, ms, a, b);
    if a != [] {
      assert (a + b)[0] == a[0];
      assert (a + b)[1..] == a[1..] + b;
      CornerVerticesAppend(model, ms, matflags, a[1..], b);
    } else {
      assert a + b == b;
    }
  }

  /** Vertex k of a run is the vertex of corner k. */
  lemma {:induction false} CornerVerticesAt(model: Model, ms: Meshset, matflags: bv32, cs: seq<Corner>, k: nat)
    requires CornersOk(model, ms, cs) && k < |cs|
    ensures CornerOk(model, ms, cs[k])
    ensures CornerVertices(model, ms, matflags, cs)[k] == CornerVertex(model, ms, matflags, cs[k])
    decreases k
  {
    if k > 0 {
      CornerVerticesAt(model, ms, matflags, cs[1..], k - 1);
    }
  }

  /** Without UVs the vertex depends on the point alone; with UVs it reads
      (u/256, v/256), halved on a mirrored axis. */
  lemma CornerVertexTex(model: Model, ms: Meshset, matflags: bv32, c: Corner)
    requires CornerOk(model, ms, c)
    ensures ms.vertuv.None? ==> CornerVertex(model, ms, matflags, c).tex == Zero2
    ensures ms.vertuv.Some? ==>
              var uv := ms.vertuv.value[c.uv];
              CornerVertex(model, ms, matflags, c).tex.x * (if matflags & FlagFlipU != 0 then 512.0 else 256.0) == uv.u as real &&
              CornerVertex(model, ms, matflags, c).tex.y * (if matflags & FlagFlipV != 0 then 512.0 else 256.0) == uv.v as real
  {
  }
}
