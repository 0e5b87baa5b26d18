/** The SA2 (Sonic Adventure 2) level loader. Like the SA1 loader it walks
    the COL list and decodes each model once, but its basic decoder pushes
    one three-index face per triangle, it reads quads differently, and a
    model may instead be routed to the chunk decoder, which leaves the
    model's mesh empty. */
module Sa2 {
  import opened Types
  import opened Dedup
  import opened Salvl
  import opened Basic
  import Sa1

  /** A part's vertex table and face list. */
  type FaceTables = (seq<Vertex>, seq<Face>)

  function FTabs(part: MeshPart<Face>): FaceTables
    reads part
  {
    (part.vertex, part.indices)
  }

  /** Entry k of a face. */
  function Nth(f: Face, k: nat): int
    requires k < 3
  {
    if k == 0 then f.i0 else if k == 1 then f.i1 else f.i2
  }

  /** The three corners named by a face of point indices and a face of UV
      indices. */
  function Tri(i: Face, j: Face): (cs: seq<Corner>)
    ensures |cs| == 3 && forall k :: 0 <= k < 3 ==> cs[k] == Corner(Nth(i, k), Nth(j, k))
  {
    [Corner(i.i0, j.i0), Corner(i.i1, j.i1), Corner(i.i2, j.i2)]
  }

  /** One triangle: its three vertices are added in turn and a face of the
      three indices handed back is pushed. */
  function EmitTriangle(t: FaceTables, model: Model, ms: Meshset, flags: bv32, tri: seq<Corner>): FaceTables
    requires |tri| == 3 && CornersOk(model, ms, tri)
  {
    var e := Sa1.EmitCorners((t.0, []), model, ms, flags, tri);
    Sa1.EmitCornersLength((t.0, []), model, ms, flags, tri);
    (e.0, t.1 + [Face(e.1[0], e.1[1], e.1[2])])
  }

  /** The tables after emitting the corners `cs` three at a time, one face
      per triangle; a trailing run of fewer than three corners adds nothing. */
  function EmitFaces(t: FaceTables, model: Model, ms: Meshset, flags: bv32, cs: seq<Corner>): FaceTables
    requires CornersOk(model, ms, cs)
    decreases |cs|
  {
    if |cs| < 3 then t
    else
      assert cs[..3] + cs[3..] == cs;
      CornersOkAppend(model, ms, cs[..3], cs[3..]);
      EmitFaces(EmitTriangle(t, model, ms, flags, cs[..3]), model, ms, flags, cs[3..])
  }

  /** The index list of a face list: each face's three entries in order. */
  function Flatten(fs: seq<Face>): seq<int>
    decreases |fs|
  {
    if fs == [] then [] else [fs[0].i0, fs[0].i1, fs[0].i2] + Flatten(fs[1..])
  }

  lemma {:induction false} FlattenAppend(a: seq<Face>, b: seq<Face>)
    ensures Flatten(a + b) == Flatten(a) + Flatten(b)
    decreases |a|
  {
    if a == [] {
      assert a + b == b;
    } else {
      assert (a + b)[0] == a[0];
      assert (a + b)[1..] == a[1..] + b;
      FlattenAppend(a[1..], b);
    }
  }

  /** Entries 3k, 3k+1 and 3k+2 of the index list are the entries of face k. */
  lemma {:induction false} FlattenAt(fs: seq<Face>, k: nat)
    requires k < |fs|
    ensures |Flatten(fs)| == 3 * |fs|
    ensures Flatten(fs)[3 * k] == fs[k].i0 && Flatten(fs)[3 * k + 1] == fs[k].i1 && Flatten(fs)[3 * k + 2] == fs[k].i2
    decreases k
  {
    FlattenLength(fs);
    if k > 0 {
      FlattenAt(fs[1..], k - 1);
    }
  }

  lemma {:induction false} FlattenLength(fs: seq<Face>)
    ensures |Flatten(fs)| == 3 * |fs|
    decreases |fs|
  {
    if fs != [] {
      FlattenLength(fs[1..]);
    }
  }

  /** Emitting one triangle is one EmitTriangle. */
  lemma EmitFacesOne(t: FaceTables, model: Model, ms: Meshset, flags: bv32, tri: seq<Corner>)
    requires |tri| == 3 && CornersOk(model, ms, tri)
    ensures EmitFaces(t, model, ms, flags, tri) == EmitTriangle(t, model, ms, flags, tri)
  {
    assert tri[..3] == tri;
    assert |tri[3..]| == 0;
  }

  /** Emitting a run of whole triangles and then another run is emitting
      the two runs together. */
  lemma {:induction false} EmitFacesAppend(t: FaceTables, model: Model, ms: Meshset, flags: bv32, a: seq<Corner>, b: seq<Corner>)
    requires CornersOk(model, ms, a) && CornersOk(model, ms, b) && |a| % 3 == 0
    ensures CornersOk(model, ms, a + b)
    ensures EmitFaces(t, model, ms, flags, a + b) == EmitFaces(EmitFaces(t, model, ms, flags, a), model, ms, flags, b)
    decreases |a|
  {
    CornersOkAppend(model, ms, a, b);
    if a == [] {
      assert a + b == b;
    } else {
      assert (a + b)[..3] == a[..3];
      assert (a + b)[3..] == a[3..] + b;
      assert a[..3] + a[3..] == a;
      CornersOkAppend(model, ms, a[..3], a[3..]);
      EmitFacesAppend(EmitTriangle(t, model, ms, flags, a[..3]), model, ms, flags, a[3..], b);
    }
  }

  /** One triangle pushes the three entries the flat decoder would push
      for its corners, as one face, onto the old faces. */
  lemma EmitTriangleFlat(t: FaceTables, model: Model, ms: Meshset, flags: bv32, tri: seq<Corner>)
    requires |tri| == 3 && CornersOk(model, ms, tri)
    ensures var f := EmitTriangle(t, model, ms, flags, tri);
            (f.0, Flatten(f.1)) == Sa1.EmitCorners((t.0, Flatten(t.1)), model, ms, flags, tri) &&
            |f.1| == |t.1| + 1 && t.1 <= f.1
  {
    var e0 := Sa1.EmitCorners((t.0, []), model, ms, flags, tri);
    var vs := CornerVertices(model, ms, flags, tri);
    Sa1.EmitCornersLength((t.0, []), model, ms, flags, tri);
    Sa1.EmitCornersIsInsertAll((t.0, []), model, ms, flags, tri);
    Sa1.EmitCornersIsInsertAll((t.0, Flatten(t.1)), model, ms, flags, tri);
    assert e0.1 == [] + Indices(t.0, vs) == Indices(t.0, vs);
    var face := Face(e0.1[0], e0.1[1], e0.1[2]);
    assert e0.1 == [e0.1[0], e0.1[1], e0.1[2]];
    FlattenAppend(t.1, [face]);
    assert Flatten([face]) == e0.1;
  }

  /** Pushing faces is pushing their entries one by one: for whole
      triangles the vertex table is the one the flat decoder builds from the
      same corners, the faces flattened are the flat decoder's indices, one
      face is added per triangle, and the old faces stay a prefix. */
  lemma {:induction false} EmitFacesFlat(t: FaceTables, model: Model, ms: Meshset, flags: bv32, cs: seq<Corner>)
    requires CornersOk(model, ms, cs) && |cs| % 3 == 0
    ensures var f := EmitFaces(t, model, ms, flags, cs);
            var e := Sa1.EmitCorners((t.0, Flatten(t.1)), model, ms, flags, cs);
            f.0 == e.0 && Flatten(f.1) == e.1 && |f.1| == |t.1| + |cs| / 3 && t.1 <= f.1
    decreases |cs|
  {
    if cs != [] {
      var tri, rest := cs[..3], cs[3..];
      assert tri + rest == cs;
      CornersOkAppend(model, ms, tri, rest);
      var t' := EmitTriangle(t, model, ms, flags, tri);
      EmitTriangleFlat(t, model, ms, flags, tri);
      EmitFacesFlat(t', model, ms, flags, rest);
      Sa1.EmitCornersAppend((t.0, Flatten(t.1)), model, ms, flags, tri, rest);
    }
  }

  /** Lines 79-94 of SA2LVL_IndexVertexBasic: the vertex of one corner. */
  method BuildVertex(model: Model, ms: Meshset, matflags: bv32, c: Corner) returns (vertex: Vertex)
    requires CornerOk(model, ms, c)
    ensures vertex == CornerVertex(model, ms, matflags, c)
  {
    vertex := DefaultVertex.(pos := model.points[c.point], nor := model.normals[c.point]);
    if ms.vertuv.Some? {
      var uv := ms.vertuv.value[c.uv];
      var tx := uv.u as real / 256.0;
      var ty := uv.v as real / 256.0;
      if matflags & FlagFlipU != 0 {
        tx := tx * 0.5;
      }
      if matflags & FlagFlipV != 0 {
        ty := ty * 0.5;
      }
      vertex := vertex.(tex := Vec2(tx, ty));
    }
  }

  /** Emitting one more corner of a run. */
  lemma EmitPrefixStep(t: Sa1.Tables, model: Model, ms: Meshset, flags: bv32, cs: seq<Corner>, k: nat)
    requires k < |cs| && CornersOk(model, ms, cs[..k]) && CornerOk(model, ms, cs[k])
    ensures CornersOk(model, ms, cs[..k + 1])
    ensures Sa1.EmitCorners(t, model, ms, flags, cs[..k + 1]) ==
              Sa1.Emit(Sa1.EmitCorners(t, model, ms, flags, cs[..k]), CornerVertex(model, ms, flags, cs[k]))
  {
    Sa1.EmitOne(Sa1.EmitCorners(t, model, ms, flags, cs[..k]), model, ms, flags, cs[k]);
    Sa1.EmitCornersAppend(t, model, ms, flags, cs[..k], [cs[k]]);
    assert cs[..k + 1] == cs[..k] + [cs[k]];
  }

  /** SA2LVL_IndexVertexBasic: for k = 0, 1, 2 the vertex of point i[k] with
      UV j[k] is added to the part, then one face of the three indices
      AddVertex returned is pushed. */
  method IndexVertexBasic(part: MeshPart<Face>, model: Model, ms: Meshset, i: Face, j: Face)
    requires CornersOk(model, ms, Tri(i, j))
    modifies part`vertex, part`indices
    ensures FTabs(part) == EmitTriangle(old(FTabs(part)), model, ms, part.matflags, Tri(i, j))
  {
    ghost var cs := Tri(i, j);
    ghost var t0 := part.vertex;
    CornersOkMeaning(model, ms, cs);
    var pi: seq<int> := [];
    for k := 0 to 3
      invariant CornersOk(model, ms, cs[..k])
      invariant (part.vertex, pi) == Sa1.EmitCorners((t0, []), model, ms, part.matflags, cs[..k])
      invariant |pi| == k && part.indices == old(part.indices)
    {
      var vertex := BuildVertex(model, ms, part.matflags, Corner(Nth(i, k), Nth(j, k)));
      EmitPrefixStep((t0, []), model, ms, part.matflags, cs, k);
      var idx := part.AddVertex(vertex);
      pi := pi + [ToSint16(idx)];
    }
    assert cs[..3] == cs;
    part.indices := part.indices + [Face(pi[0], pi[1], pi[2])];
  }

  /** The triangle branch: face (p0, p1, p2) with UV indices (l, l+1, l+2);
      the cursor and l move by 3. */
  method DecodeTriangle(part: MeshPart<Face>, model: Model, ms: Meshset, cur: nat, l: int) returns (next: nat, l': int)
    requires Primitive(0, ms.meshes, cur, l, true).Some?
    requires CornersOk(model, ms, Primitive(0, ms.meshes, cur, l, true).value.corners)
    modifies part`vertex, part`indices
    ensures var st := Primitive(0, ms.meshes, cur, l, true).value;
            next == st.next && l' == st.uv &&
            FTabs(part) == EmitFaces(old(FTabs(part)), model, ms, part.matflags, st.corners)
  {
    var s := ms.meshes;
    ghost var tri := Tri(Face(s[cur], s[cur + 1], s[cur + 2]), Face(l, l + 1, l + 2));
    assert tri == Primitive(0, s, cur, l, true).value.corners;
    EmitFacesOne(FTabs(part), model, ms, part.matflags, tri);
    IndexVertexBasic(part, model, ms, Face(s[cur], s[cur + 1], s[cur + 2]), Face(l, l + 1, l + 2));
    next, l' := cur + 3, l + 3;
  }

  /** The quad branch as the SA2 loader writes it: two faces, both on points
      (p2, p1, p3), the first with UV indices (l+2, l+1, l+2) and the second
      with (l+2, l+1, l+3); the cursor and l move by 4. */
  method DecodeQuad(part: MeshPart<Face>, model: Model, ms: Meshset, cur: nat, l: int) returns (next: nat, l': int)
    requires Primitive(1, ms.meshes, cur, l, true).Some?
    requires CornersOk(model, ms, Primitive(1, ms.meshes, cur, l, true).value.corners)
    modifies part`vertex, part`indices
    ensures var st := Primitive(1, ms.meshes, cur, l, true).value;
            next == st.next && l' == st.uv &&
            FTabs(part) == EmitFaces(old(FTabs(part)), model, ms, part.matflags, st.corners)
  {
    var s := ms.meshes;
    var i := Face(s[cur + 2], s[cur + 1], s[cur + 3]);
    ghost var t1 := Tri(i, Face(l + 2, l + 1, l + 2));
    ghost var t2 := Tri(i, Face(l + 2, l + 1, l + 3));
    assert Primitive(1, s, cur, l, true).value.corners == t1 + t2;
    CornersOkAppend(model, ms, t1, t2);
    EmitFacesAppend(FTabs(part), model, ms, part.matflags, t1, t2);
    EmitFacesOne(FTabs(part), model, ms, part.matflags, t1);
    IndexVertexBasic(part, model, ms, i, Face(l + 2, l + 1, l + 2));
    EmitFacesOne(FTabs(part), model, ms, part.matflags, t2);
    IndexVertexBasic(part, model, ms, i, Face(l + 2, l + 1, l + 3));
    next, l' := cur + 4, l + 4;
  }

  /** One strip triangle x: points x, x+1, x+2 after the header at
      `base - 1` with UV indices l, l+1, l+2, the first two swapped when the
      toggled winding bit is clear. */
  method StripTriangle(part: MeshPart<Face>, model: Model, ms: Meshset, base: nat, x: nat, l: int, straight: bool, ghost j0: int)
    requires base + x + 2 < |ms.meshes| && l == j0 + x
    requires CornersOk(model, ms, StripTri(ms.meshes, base, x, j0, straight))
    modifies part`vertex, part`indices
    ensures FTabs(part) == EmitFaces(old(FTabs(part)), model, ms, part.matflags, StripTri(ms.meshes, base, x, j0, straight))
  {
    var s := ms.meshes;
    EmitFacesOne(FTabs(part), model, ms, part.matflags, StripTri(s, base, x, j0, straight));
    if straight {
      assert StripTri(s, base, x, j0, straight) == Tri(Face(s[base + x], s[base + x + 1], s[base + x + 2]), Face(l, l + 1, l + 2));
      IndexVertexBasic(part, model, ms, Face(s[base + x], s[base + x + 1], s[base + x + 2]), Face(l, l + 1, l + 2));
    } else {
      assert StripTri(s, base, x, j0, straight) == Tri(Face(s[base + x + 1], s[base + x], s[base + x + 2]), Face(l + 1, l, l + 2));
      IndexVertexBasic(part, model, ms, Face(s[base + x + 1], s[base + x], s[base + x + 2]), Face(l + 1, l, l + 2));
    }
  }

  /** The strip loop's state before triangle x: the triangles still to
      come, emitted onto the tables `t`, give the final tables. */
  ghost predicate StripAt(t: FaceTables, model: Model, ms: Meshset, flags: bv32, base: nat, bit: bool, j0: int,
                          x: nat, n: nat, final: FaceTables)
  {
    (x + 2 >= n || base + n <= |ms.meshes|) &&
    CornersOk(model, ms, StripFrom(ms.meshes, base, bit, j0, x, n)) &&
    EmitFaces(t, model, ms, flags, StripFrom(ms.meshes, base, bit, j0, x, n)) == final
  }

  /** One pass of the strip loop: the winding bit of the header is toggled
      and triangle x is emitted, stated against the triangles still to
      come. */
  method StripPass(part: MeshPart<Face>, model: Model, ms: Meshset, base: nat, ghost bit: bool, ghost j0: int,
                   x: nat, ghost n: nat, l: int, first: int, ghost final: FaceTables) returns (first': int)
    requires x + 2 < n && base + n <= |ms.meshes| && l == j0 + x && n < 0x8000
    requires (first == n || first == n + 0x8000) && (first >= 0x8000) == !Straight(bit, x)
    requires StripAt(FTabs(part), model, ms, part.matflags, base, bit, j0, x, n, final)
    modifies part`vertex, part`indices
    ensures (first' == n || first' == n + 0x8000) && (first' >= 0x8000) == !Straight(bit, x + 1)
    ensures StripAt(FTabs(part), model, ms, part.matflags, base, bit, j0, x + 1, n, final)
  {
    first' := if first >= 0x8000 then first - 0x8000 else first + 0x8000;
    assert Straight(bit, x + 1) == !Straight(bit, x);
    Sa1.StripStep(model, ms, base, bit, j0, x, n);
    ghost var tri := StripTri(ms.meshes, base, x, j0, Straight(bit, x));
    EmitFacesAppend(FTabs(part), model, ms, part.matflags, tri, StripFrom(ms.meshes, base, bit, j0, x + 1, n));
    StripTriangle(part, model, ms, base, x, l, first' >= 0x8000, j0);
  }

  /** The triangle loop of the strip branch: `first` is the Uint16 header
      (count n, winding bit `bit`); each pass toggles the winding bit, emits
      triangle x and moves l by one. */
  method StripLoop(part: MeshPart<Face>, model: Model, ms: Meshset, base: nat, n: nat, first: int, l: int, ghost bit: bool)
      returns (l': int)
    requires n < 0x8000 && (n < 3 || base + n <= |ms.meshes|)
    requires first == n || first == n + 0x8000
    requires (first >= 0x8000) == bit
    requires CornersOk(model, ms, StripFrom(ms.meshes, base, bit, l, 0, n))
    modifies part`vertex, part`indices
    ensures l' == l + Max0(n - 2)
    ensures FTabs(part) == EmitFaces(old(FTabs(part)), model, ms, part.matflags, StripFrom(ms.meshes, base, bit, l, 0, n))
  {
    var first := first;
    ghost var flags := part.matflags;
    ghost var final := EmitFaces(FTabs(part), model, ms, flags, StripFrom(ms.meshes, base, bit, l, 0, n));
    l' := l;
    var x := 0;
    while x < n - 2
      invariant 0 <= x && (n < 3 ==> x == 0) && (n >= 3 ==> x <= n - 2)
      invariant l' == l + x
      invariant first == n || first == n + 0x8000
      invariant (first >= 0x8000) == !Straight(bit, x)
      invariant StripAt(FTabs(part), model, ms, flags, base, bit, l, x, n, final)
      decreases n - 2 - x
    {
      first := StripPass(part, model, ms, base, bit, l, x, n, l', first, final);
      x, l' := x + 1, l' + 1;
    }
    StripEnd(FTabs(part), model, ms, flags, base, bit, l, x, n, final);
  }

  /** A strip run with fewer than three points left emits nothing more. */
  lemma StripEnd(t: FaceTables, model: Model, ms: Meshset, flags: bv32, base: nat, bit: bool, j: int, x: nat, n: nat, final: FaceTables)
    requires x + 2 >= n && StripAt(t, model, ms, flags, base, bit, j, x, n, final)
    ensures t == final
  {
  }

  /** The strip branch: a header entry, then max(n - 2, 0) faces whose
      winding alternates, then l moves past the last two points. */
  method DecodeStrip(part: MeshPart<Face>, model: Model, ms: Meshset, cur: nat, l: int) returns (next: nat, l': int)
    requires Primitive(3, ms.meshes, cur, l, true).Some?
    requires CornersOk(model, ms, Primitive(3, ms.meshes, cur, l, true).value.corners)
    modifies part`vertex, part`indices
    ensures var st := Primitive(3, ms.meshes, cur, l, true).value;
            next == st.next && l' == st.uv &&
            FTabs(part) == EmitFaces(old(FTabs(part)), model, ms, part.matflags, st.corners)
  {
    var s := ms.meshes;
    var first: int := Unsigned16(s[cur]);
    var base := cur + 1;
    var n := if first >= 0x8000 then first - 0x8000 else first;
    assert StripFrom(s, base, StripBit(s[cur]), l, 0, n) == Primitive(3, s, cur, l, true).value.corners;
    l' := StripLoop(part, model, ms, base, n, first, l, StripBit(s[cur]));
    l' := l' + 2;
    next := base + n;
  }

  /** One pass of the decoder's switch on the polygon type, proved against
      Primitive; the unused type 2 pushes nothing and does not move. */
  method DecodePrimitive(part: MeshPart<Face>, model: Model, ms: Meshset, kind: int, cur: nat, l: int) returns (next: nat, l': int)
    requires Primitive(kind, ms.meshes, cur, l, true).Some?
    requires CornersOk(model, ms, Primitive(kind, ms.meshes, cur, l, true).value.corners)
    modifies part`vertex, part`indices
    ensures var st := Primitive(kind, ms.meshes, cur, l, true).value;
            next == st.next && l' == st.uv &&
            FTabs(part) == EmitFaces(old(FTabs(part)), model, ms, part.matflags, st.corners)
  {
    if kind == 0 {
      next, l' := DecodeTriangle(part, model, ms, cur, l);
    } else if kind == 1 {
      next, l' := DecodeQuad(part, model, ms, cur, l);
    } else if kind == 3 {
      next, l' := DecodeStrip(part, model, ms, cur, l);
    } else {
      next, l' := cur, l;
    }
  }

  /** The value of a face part as the decoder leaves it. */
  datatype FacePart = FacePart(vertex: seq<Vertex>, faces: seq<Face>, mat: PartMaterial)

  const EmptyFacePart: FacePart := FacePart([], [], DefaultMaterial)

  function PartOf(part: MeshPart<Face>): FacePart
    reads part
  {
    FacePart(part.vertex, part.indices, PartMaterial(part.matflags, part.texture, part.diffuse))
  }

  /** Decoding one meshset into a part as SA2LVL_LoadBasic does: the
      material is selected first, then the corners of the meshset, read with
      the SA2 quad layout, are emitted one face per triangle. */
  function DecodeFaces(pv: FacePart, model: Model, ms: Meshset): FacePart
    requires MeshsetOk(model, ms, true)
  {
    var mat := SelectMaterial(model, ms, pv.mat);
    var t := EmitFaces((pv.vertex, pv.faces), model, ms, mat.matflags, MeshsetCorners(ms, true).value);
    FacePart(t.0, t.1, mat)
  }

  /** The flat view of a face part: its faces' entries in order. */
  function Flat(pv: FacePart): Sa1.PartValue
  {
    Sa1.PartValue(pv.vertex, Flatten(pv.faces), pv.mat)
  }

  /** A meshset yields one face per three corners, and the decoded part in
      terms of the deduplication table alone: the table is the old one with
      the corners' vertices inserted in turn, the old faces are kept, and
      the new faces, flattened, are one index per corner. */
  lemma DecodeFacesIsInsertAll(pv: FacePart, model: Model, ms: Meshset)
    requires MeshsetOk(model, ms, true)
    ensures var r := DecodeFaces(pv, model, ms);
            var cs := MeshsetCorners(ms, true).value;
            var vs := CornerVertices(model, ms, r.mat.matflags, cs);
            |cs| % 3 == 0 && |r.faces| == |pv.faces| + |cs| / 3 && pv.faces <= r.faces &&
            r.vertex == InsertAll(pv.vertex, vs) &&
            Flatten(r.faces) == Flatten(pv.faces) + Indices(pv.vertex, vs)
  {
    var mat := SelectMaterial(model, ms, pv.mat);
    var cs := MeshsetCorners(ms, true).value;
    CornersTriples(PolyType(ms), ms.meshes, 0, 0, ms.nbMesh, true);
    EmitFacesFlat((pv.vertex, pv.faces), model, ms, mat.matflags, cs);
    Sa1.EmitCornersIsInsertAll((pv.vertex, Flatten(pv.faces)), model, ms, mat.matflags, cs);
  }

  /** Every entry of every face names one of the part's vertices. */
  predicate FacesInRange(pv: FacePart)
  {
    forall k :: 0 <= k < |pv.faces| ==>
      0 <= pv.faces[k].i0 < |pv.vertex| && 0 <= pv.faces[k].i1 < |pv.vertex| && 0 <= pv.faces[k].i2 < |pv.vertex|
  }

  /** Decoding a meshset into a part whose faces are valid keeps them valid
      and the table free of duplicates, as long as the table ends with at
      most 0x8000 vertices; new face m is the triangle of corners 3m, 3m+1
      and 3m+2. */
  lemma DecodeFacesValid(pv: FacePart, model: Model, ms: Meshset)
    requires MeshsetOk(model, ms, true)
    requires FacesInRange(pv) && |DecodeFaces(pv, model, ms).vertex| <= 0x8000
    ensures var r := DecodeFaces(pv, model, ms);
            var vs := CornerVertices(model, ms, r.mat.matflags, MeshsetCorners(ms, true).value);
            FacesInRange(r) && pv.vertex <= r.vertex && (NoDup(pv.vertex) ==> NoDup(r.vertex)) &&
            |r.faces| * 3 == |pv.faces| * 3 + |vs| &&
            forall m :: 0 <= m < |r.faces| - |pv.faces| ==>
              var f := r.faces[|pv.faces| + m];
              r.vertex[f.i0] == vs[3 * m] && r.vertex[f.i1] == vs[3 * m + 1] && r.vertex[f.i2] == vs[3 * m + 2]
  {
    var r := DecodeFaces(pv, model, ms);
    var vs := CornerVertices(model, ms, r.mat.matflags, MeshsetCorners(ms, true).value);
    var added := Indices(pv.vertex, vs);
    DecodeFacesIsInsertAll(pv, model, ms);
    InsertAllFacts(pv.vertex, vs);
    assert pv.vertex <= r.vertex;
    FlattenLength(pv.faces);
    FlattenLength(r.faces);
    forall m | 0 <= m < |r.faces|
      ensures 0 <= r.faces[m].i0 < |r.vertex| && 0 <= r.faces[m].i1 < |r.vertex| && 0 <= r.faces[m].i2 < |r.vertex|
      ensures m >= |pv.faces| ==>
                r.vertex[r.faces[m].i0] == vs[3 * (m - |pv.faces|)] &&
                r.vertex[r.faces[m].i1] == vs[3 * (m - |pv.faces|) + 1] &&
                r.vertex[r.faces[m].i2] == vs[3 * (m - |pv.faces|) + 2]
    {
      FlattenAt(r.faces, m);
      if m < |pv.faces| {
        assert r.faces[m] == pv.faces[m];
      } else {
        var q := 3 * (m - |pv.faces|);
        assert 3 * m == 3 * |pv.faces| + q;
        IndicesValid(pv.vertex, vs, q);
        IndicesValid(pv.vertex, vs, q + 1);
        IndicesValid(pv.vertex, vs, q + 2);
      }
    }
  }

  /** One pass of the primitive loop, stated against the corners still to
      come. */
  method PrimitivePass(part: MeshPart<Face>, model: Model, ms: Meshset, kind: int, cur: nat, l: int, count: nat)
      returns (next: nat, l': int)
    requires count > 0 && CornersFrom(kind, ms.meshes, cur, l, count, true).Some?
    requires CornersOk(model, ms, CornersFrom(kind, ms.meshes, cur, l, count, true).value)
    requires 0 <= kind < 4
    modifies part`vertex, part`indices
    ensures CornersFrom(kind, ms.meshes, next, l', count - 1, true).Some?
    ensures CornersOk(model, ms, CornersFrom(kind, ms.meshes, next, l', count - 1, true).value)
    ensures EmitFaces(FTabs(part), model, ms, part.matflags, CornersFrom(kind, ms.meshes, next, l', count - 1, true).value) ==
            EmitFaces(old(FTabs(part)), model, ms, part.matflags, CornersFrom(kind, ms.meshes, cur, l, count, true).value)
  {
    ghost var st := Primitive(kind, ms.meshes, cur, l, true).value;
    ghost var rest := CornersFrom(kind, ms.meshes, st.next, st.uv, count - 1, true).value;
    assert CornersFrom(kind, ms.meshes, cur, l, count, true).value == st.corners + rest;
    CornersOkAppend(model, ms, st.corners, rest);
    PrimitiveShape(kind, ms.meshes, cur, l, true);
    EmitFacesAppend(FTabs(part), model, ms, part.matflags, st.corners, rest);
    next, l' := DecodePrimitive(part, model, ms, kind, cur, l);
  }

  /** The primitive loop of SA2LVL_LoadBasic's meshset body: nbMesh passes
      of the switch on the polygon type, proved to emit the meshset's
      corners one face per triangle. */
  method DecodePrimitives(part: MeshPart<Face>, model: Model, ms: Meshset)
    requires MeshsetOk(model, ms, true)
    modifies part`vertex, part`indices
    ensures FTabs(part) == EmitFaces(old(FTabs(part)), model, ms, part.matflags, MeshsetCorners(ms, true).value)
  {
    var polytype := ms.typeMatId / 0x4000;
    var s := ms.meshes;
    ghost var final := EmitFaces(FTabs(part), model, ms, part.matflags, MeshsetCorners(ms, true).value);
    var p, cur, l := 0, 0, 0;
    while p < ms.nbMesh
      invariant 0 <= p <= ms.nbMesh
      invariant CornersFrom(polytype, s, cur, l, ms.nbMesh - p, true).Some?
      invariant CornersOk(model, ms, CornersFrom(polytype, s, cur, l, ms.nbMesh - p, true).value)
      invariant EmitFaces(FTabs(part), model, ms, part.matflags, CornersFrom(polytype, s, cur, l, ms.nbMesh - p, true).value) == final
    {
      cur, l := PrimitivePass(part, model, ms, polytype, cur, l, ms.nbMesh - p);
      p := p + 1;
    }
  }

  /** SA2LVL_LoadBasic's body for one meshset: the material is selected,
      then the primitives are decoded; the part ends up as DecodeFaces
      describes. */
  method LoadMeshset(part: MeshPart<Face>, model: Model, ms: Meshset)
    requires MeshsetOk(model, ms, true)
    modifies part`vertex, part`indices, part`matflags, part`texture, part`diffuse
    ensures PartOf(part) == DecodeFaces(old(PartOf(part)), model, ms)
  {
    Sa1.ApplyMaterial(part, model, ms);
    DecodePrimitives(part, model, ms);
  }

  /** The decoded value of a model: its face parts by material id and the
      order in which the part of each id was first created. */
  datatype FaceMesh = FaceMesh(parts: map<int, FacePart>, order: seq<int>)

  /** The meshsets 0 .. k-1 decoded one after another, each into the part of
      its material id, created empty the first time the id is met. */
  function FacesUpTo(model: Model, k: nat): FaceMesh
    requires ModelOk(model, true) && k <= |model.meshsets|
  {
    if k == 0 then FaceMesh(map[], [])
    else FacesNext(FacesUpTo(model, k - 1), model, model.meshsets[k - 1])
  }

  /** One meshset decoded into the face part of its material id. */
  function FacesNext(prev: FaceMesh, model: Model, ms: Meshset): FaceMesh
    requires MeshsetOk(model, ms, true)
  {
    var id := MaterialId(ms);
    var pv := if id in prev.parts then prev.parts[id] else EmptyFacePart;
    FaceMesh(prev.parts[id := DecodeFaces(pv, model, ms)],
             if id in prev.parts then prev.order else prev.order + [id])
  }

  lemma FacesUpToNext(model: Model, k: nat)
    requires k < |model.meshsets| && ModelOk(model, true)
    ensures MeshsetOk(model, model.meshsets[k], true)
    ensures FacesUpTo(model, k + 1) == FacesNext(FacesUpTo(model, k), model, model.meshsets[k])
  {
  }

  /** The whole model decoded by the basic decoder. */
  function DecodeBasic(model: Model): FaceMesh
    requires ModelOk(model, true)
  {
    FacesUpTo(model, |model.meshsets|)
  }

  /** A model without quad meshsets. */
  predicate NoQuads(model: Model)
  {
    forall i :: 0 <= i < |model.meshsets| ==> PolyType(model.meshsets[i]) != 1
  }

  /** The flat view of a decoded model. */
  function FlatMesh(m: FaceMesh): Sa1.MeshValue
  {
    Sa1.MeshValue(map id | id in m.parts :: Flat(m.parts[id]), m.order)
  }

  /** On a meshset without quads the face decoder and the flat decoder
      agree: same table, same material, and the faces flattened are the
      flat decoder's indices. */
  lemma DecodeFacesFlat(pv: FacePart, model: Model, ms: Meshset)
    requires MeshsetOk(model, ms, true) && PolyType(ms) != 1
    ensures MeshsetOk(model, ms, false)
    ensures Flat(DecodeFaces(pv, model, ms)) == Sa1.DecodeMeshset(Flat(pv), model, ms)
  {
    OnlyQuadsDiffer(PolyType(ms), ms.meshes, 0, 0, ms.nbMesh);
    CornersTriples(PolyType(ms), ms.meshes, 0, 0, ms.nbMesh, true);
    var mat := SelectMaterial(model, ms, pv.mat);
    EmitFacesFlat((pv.vertex, pv.faces), model, ms, mat.matflags, MeshsetCorners(ms, true).value);
  }

  lemma FacesNextFlat(prev: FaceMesh, model: Model, ms: Meshset)
    requires MeshsetOk(model, ms, true) && PolyType(ms) != 1
    ensures MeshsetOk(model, ms, false)
    ensures FlatMesh(FacesNext(prev, model, ms)) == Sa1.DecodeNext(FlatMesh(prev), model, ms)
  {
    var id := MaterialId(ms);
    var pv := if id in prev.parts then prev.parts[id] else EmptyFacePart;
    DecodeFacesFlat(pv, model, ms);
    assert Flat(EmptyFacePart) == Sa1.EmptyPart;
    assert FlatMesh(FacesNext(prev, model, ms)).parts == FlatMesh(prev).parts[id := Flat(DecodeFaces(pv, model, ms))];
  }

  /** On models without quads the SA2 basic decoder and the SA1 decoder
      build the same parts: the same vertex tables, materials and creation
      order, with the SA2 faces flattened equal to the SA1 index lists. */
  lemma {:induction false} FacesUpToFlat(model: Model, k: nat)
    requires ModelOk(model, true) && NoQuads(model) && k <= |model.meshsets|
    ensures ModelOk(model, false)
    ensures FlatMesh(FacesUpTo(model, k)) == Sa1.DecodeUpTo(model, k)
  {
    NoQuadsOk(model);
    if k > 0 {
      FacesUpToFlat(model, k - 1);
      FacesNextFlat(FacesUpTo(model, k - 1), model, model.meshsets[k - 1]);
    }
  }

  /** Without quads both readings of every meshset are the same, so a model
      one loader can read the other can read too. */
  lemma NoQuadsOk(model: Model)
    requires NoQuads(model)
    ensures ModelOk(model, true) <==> ModelOk(model, false)
  {
    forall i | 0 <= i < |model.meshsets|
      ensures MeshsetCorners(model.meshsets[i], true) == MeshsetCorners(model.meshsets[i], false)
    {
      var ms := model.meshsets[i];
      OnlyQuadsDiffer(PolyType(ms), ms.meshes, 0, 0, ms.nbMesh);
    }
  }

  /** The abstract value of a map of face parts. */
  ghost function PartsOf(parts: map<int, MeshPart<Face>>): map<int, FacePart>
    reads parts.Values
  {
    map id | id in parts :: PartOf(parts[id])
  }

  /** `mesh.parts[material]`: the part of that id, created (empty) and
      appended to the creation order when absent. */
  method PartFor(parts: map<int, MeshPart<Face>>, order: seq<int>, material: int)
      returns (parts': map<int, MeshPart<Face>>, order': seq<int>)
    requires Sa1.Distinct(parts)
    ensures Sa1.Distinct(parts') && material in parts'
    ensures forall o :: o in parts'.Values ==> o in parts.Values || fresh(o)
    ensures PartsOf(parts') == PartsOf(parts)[material := if material in parts then PartsOf(parts)[material] else EmptyFacePart]
    ensures order' == if material in parts then order else order + [material]
  {
    parts', order' := parts, order;
    if material !in parts {
      var part := new MeshPart<Face>();
      parts' := parts[material := part];
      order' := order + [material];
    }
  }

  /** Decoding a meshset into the part of one id changes that part as
      DecodeFaces says and no other. */
  method DecodeInto(parts: map<int, MeshPart<Face>>, material: int, model: Model, ms: Meshset)
    requires MeshsetOk(model, ms, true) && Sa1.Distinct(parts) && material in parts
    modifies parts[material]
    ensures PartsOf(parts) == old(PartsOf(parts))[material := DecodeFaces(old(PartsOf(parts))[material], model, ms)]
  {
    var part := parts[material];
    ghost var mid := PartsOf(parts);
    LoadMeshset(part, model, ms);
    forall k | k in parts && k != material
      ensures PartOf(parts[k]) == mid[k]
    {
      assert parts[k] != part;
    }
  }

  /** One pass of SA2LVL_LoadBasic's meshset loop. */
  method PlaceMeshset(parts: map<int, MeshPart<Face>>, order: seq<int>, model: Model, ms: Meshset)
      returns (parts': map<int, MeshPart<Face>>, order': seq<int>)
    requires MeshsetOk(model, ms, true) && Sa1.Distinct(parts)
    modifies parts.Values
    ensures Sa1.Distinct(parts')
    ensures forall o :: o in parts'.Values ==> o in parts.Values || fresh(o)
    ensures FaceMesh(PartsOf(parts'), order') == FacesNext(FaceMesh(old(PartsOf(parts)), order), model, ms)
  {
    var material := ms.typeMatId % 0x4000;
    parts', order' := PartFor(parts, order, material);
    DecodeInto(parts', material, model, ms);
  }

  /** The meshset loop of SA2LVL_LoadBasic, building a fresh local mesh. */
  method BuildMesh(model: Model) returns (mesh: Mesh<Face>)
    requires ModelOk(model, true)
    ensures Sa1.Distinct(mesh.parts)
    ensures forall o :: o in mesh.parts.Values ==> fresh(o)
    ensures PartsOf(mesh.parts) == DecodeBasic(model).parts
    ensures mesh.order == DecodeBasic(model).order
  {
    var parts: map<int, MeshPart<Face>> := map[];
    var order: seq<int> := [];
    var k := 0;
    while k < |model.meshsets|
      invariant k <= |model.meshsets|
      invariant Sa1.Distinct(parts)
      invariant forall o :: o in parts.Values ==> fresh(o)
      invariant FaceMesh(PartsOf(parts), order) == FacesUpTo(model, k)
    {
      FacesUpToNext(model, k);
      parts, order := PlaceMeshset(parts, order, model, model.meshsets[k]);
      k := k + 1;
    }
    mesh := Mesh(parts, order);
  }

  /** A mesh holds the basic decoding of a model: one part object per
      material id, each part's value and the creation order as DecodeBasic
      gives them. */
  ghost predicate HoldsBasic(mesh: Mesh<Face>, model: Model)
    reads mesh.parts.Values
  {
    ModelOk(model, true) && Sa1.Distinct(mesh.parts) &&
    PartsOf(mesh.parts) == DecodeBasic(model).parts && mesh.order == DecodeBasic(model).order
  }

  /** SA2LVL_LoadBasic: the model is decoded into a local mesh, which is
      then stored under the model's key; no other mesh changes. */
  method LoadBasic(lvl: Level<Face>, id: int, model: Model)
    requires ModelOk(model, true)
    modifies lvl`meshes
    ensures lvl.meshes.Keys == old(lvl.meshes.Keys) + {id}
    ensures forall k :: k in old(lvl.meshes) && k != id ==> lvl.meshes[k] == old(lvl.meshes[k])
    ensures HoldsBasic(lvl.meshes[id], model)
  {
    var mesh := BuildMesh(model);
    lvl.meshes := lvl.meshes[id := mesh];
  }

  /** A default-constructed mesh: no parts. */
  const EmptyFaceMesh: Mesh<Face> := Mesh(map[], [])

  /** The decoder choice of SA2LVL_Loader for COL i: with a non-negative
      VisibleModelCount the first VisibleModelCount COLs go to the chunk
      decoder, otherwise the COLs with the visible flag do. */
  predicate UsesChunk(visibleModelCount: int, i: int, flags: bv32)
  {
    if visibleModelCount >= 0 then i < visibleModelCount else flags & Sa1.ColVisible != 0
  }

  /** A COL places model `id`. */
  predicate Refers(col: Sa1.Col, id: int)
  {
    Sa1.Placed(col) && Sa1.ModelKey(col) == id
  }

  /** A model is used by the first i COLs exactly when one of them places it. */
  lemma {:induction false} ModelsUsedMeaning(cols: seq<Sa1.Col>, i: nat, id: int)
    requires i <= |cols|
    ensures id in Sa1.ModelsUsed(cols, i) <==> exists k :: 0 <= k < i && Refers(cols[k], id)
  {
    if i > 0 {
      ModelsUsedMeaning(cols, i - 1, id);
      if Refers(cols[i - 1], id) {
        assert 0 <= i - 1 < i && Refers(cols[i - 1], id);
      }
    }
  }

  /** For each model key placed by the COLs 0 .. i-1 and not in `known`,
      whether the chunk decoder was chosen for it (true) or the basic one
      (false). */
  function Choices(vmc: int, cols: seq<Sa1.Col>, known: set<int>, i: nat): map<int, bool>
    requires i <= |cols|
  {
    if i == 0 then map[]
    else
      var prev := Choices(vmc, cols, known, i - 1);
      var col := cols[i - 1];
      if Sa1.Placed(col) && Sa1.ModelKey(col) !in known && Sa1.ModelKey(col) !in prev then
        prev[Sa1.ModelKey(col) := UsesChunk(vmc, i - 1, col.flags)]
      else prev
  }

  /** Every model used and not known has a choice, and no other. */
  lemma {:induction false} ChoicesKeys(vmc: int, cols: seq<Sa1.Col>, known: set<int>, i: nat)
    requires i <= |cols|
    ensures Choices(vmc, cols, known, i).Keys == Sa1.ModelsUsed(cols, i) - known
  {
    if i > 0 {
      ChoicesKeys(vmc, cols, known, i - 1);
    }
  }

  /** The choice for each new model is made by the first COL that places it. */
  lemma {:induction false} ChoicesFirst(vmc: int, cols: seq<Sa1.Col>, known: set<int>, i: nat, id: int)
    requires i <= |cols| && id in Choices(vmc, cols, known, i)
    ensures exists k :: 0 <= k < i && Refers(cols[k], id) &&
                        (forall k' :: 0 <= k' < k ==> !Refers(cols[k'], id)) &&
                        Choices(vmc, cols, known, i)[id] == UsesChunk(vmc, k, cols[k].flags)
  {
    var prev := Choices(vmc, cols, known, i - 1);
    var col := cols[i - 1];
    if Sa1.Placed(col) && Sa1.ModelKey(col) !in known && Sa1.ModelKey(col) !in prev && Sa1.ModelKey(col) == id {
      ChoicesKeys(vmc, cols, known, i - 1);
      ModelsUsedMeaning(cols, i - 1, id);
      assert Refers(cols[i - 1], id) && forall k' :: 0 <= k' < i - 1 ==> !Refers(cols[k'], id);
    } else {
      ChoicesFirst(vmc, cols, known, i - 1, id);
    }
  }

  /** The basic models the loader may decode exist and can be read. */
  predicate BasicModelsOk(vmc: int, cols: seq<Sa1.Col>, models: map<int, Model>)
  {
    forall k :: 0 <= k < |cols| && Sa1.Placed(cols[k]) && !UsesChunk(vmc, k, cols[k].flags) ==>
      Sa1.ModelKey(cols[k]) in models && ModelOk(models[Sa1.ModelKey(cols[k])], true)
  }

  /** The body of SA2LVL_Loader's COL loop for COL i. A model met for the
      first time goes to the decoder UsesChunk picks; SA2LVL_LoadChunk
      stores nothing, so the lookup `lvl.meshes[model]` then creates an
      empty mesh for it. */
  method LoadCol(lvl: Level<Face>, col: Sa1.Col, i: int, vmc: int, models: map<int, Model>)
    requires Sa1.Placed(col) && !UsesChunk(vmc, i, col.flags) ==>
               Sa1.ModelKey(col) in models && ModelOk(models[Sa1.ModelKey(col)], true)
    modifies lvl`meshes, lvl`meshinstances
    ensures lvl.meshinstances == old(lvl.meshinstances) + (if Sa1.InstanceOf(col).Some? then [Sa1.InstanceOf(col).value] else [])
    ensures lvl.meshes.Keys == old(lvl.meshes.Keys) + (if Sa1.Placed(col) then {Sa1.ModelKey(col)} else {})
    ensures forall id :: id in old(lvl.meshes) ==> lvl.meshes[id] == old(lvl.meshes[id])
    ensures forall id :: id in lvl.meshes && id !in old(lvl.meshes) ==>
              (UsesChunk(vmc, i, col.flags) ==> lvl.meshes[id] == EmptyFaceMesh) &&
              (!UsesChunk(vmc, i, col.flags) ==> id in models && HoldsBasic(lvl.meshes[id], models[id]))
  {
    if col.obj.Some? && col.obj.value.model.Some? {
      var meshinstance := Sa1.MakeInstance(col);
      var id := col.obj.value.model.value;
      if id !in lvl.meshes {
        if !UsesChunk(vmc, i, col.flags) {
          LoadBasic(lvl, id, models[id]);
        }
        if id !in lvl.meshes {
          lvl.meshes := lvl.meshes[id := EmptyFaceMesh];
        }
      }
      lvl.meshinstances := lvl.meshinstances + [meshinstance];
    }
  }

  /** SA2LVL_Loader's COL loop: one instance per COL with a model, pushed in
      order; each model is decoded once, by the decoder chosen for the first
      COL that places it, and its mesh is reused after. */
  method Loader(lvl: Level<Face>, cols: seq<Sa1.Col>, vmc: int, models: map<int, Model>)
    requires BasicModelsOk(vmc, cols, models)
    modifies lvl`meshes, lvl`meshinstances
    ensures lvl.meshinstances == old(lvl.meshinstances) + Sa1.Instances(cols, |cols|)
    ensures lvl.meshes.Keys == old(lvl.meshes.Keys) + Sa1.ModelsUsed(cols, |cols|)
    ensures forall id :: id in old(lvl.meshes) ==> lvl.meshes[id] == old(lvl.meshes[id])
    ensures forall id :: id in lvl.meshes && id !in old(lvl.meshes) ==>
              var chunk := Choices(vmc, cols, old(lvl.meshes.Keys), |cols|);
              id in chunk &&
              (chunk[id] ==> lvl.meshes[id] == EmptyFaceMesh) &&
              (!chunk[id] ==> id in models && HoldsBasic(lvl.meshes[id], models[id]))
  {
    ghost var known := lvl.meshes.Keys;
    var i := 0;
    while i < |cols|
      invariant i <= |cols|
      invariant lvl.meshinstances == old(lvl.meshinstances) + Sa1.Instances(cols, i)
      invariant lvl.meshes.Keys == known + Sa1.ModelsUsed(cols, i)
      invariant forall id :: id in old(lvl.meshes) ==> lvl.meshes[id] == old(lvl.meshes[id])
      invariant forall id :: id in lvl.meshes && id !in old(lvl.meshes) ==>
                  var chunk := Choices(vmc, cols, known, i);
                  id in chunk &&
                  (chunk[id] ==> lvl.meshes[id] == EmptyFaceMesh) &&
                  (!chunk[id] ==> id in models && HoldsBasic(lvl.meshes[id], models[id]))
    {
      ChoicesKeys(vmc, cols, known, i);
      LoadCol(lvl, cols[i], i, vmc, models);
      i := i + 1;
    }
  }
}
