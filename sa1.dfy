/** The SA1 (Sonic Adventure DX) level loader: it walks the level's COL
    list, builds one mesh instance per placed model and decodes each model
    once into per-material mesh parts with a flat index list. */
module Sa1 {
  import opened Types
  import opened Dedup
  import opened Salvl
  import opened Basic
  import Rotation

  /** SA1LVL_SURFFLAG_SOLID and SA1LVL_SURFFLAG_VISIBLE. */
  const ColSolid: bv32 := 0x1
  const ColVisible: bv32 := 0x8000_0000

  /** The value of a mesh part as the decoder leaves it. */
  datatype PartValue = PartValue(vertex: seq<Vertex>, indices: seq<int>, mat: PartMaterial)

  const EmptyPart: PartValue := PartValue([], [], DefaultMaterial)

  function Abs(part: MeshPart<int>): PartValue
    reads part
  {
    PartValue(part.vertex, part.indices, PartMaterial(part.matflags, part.texture, part.diffuse))
  }

  /** Decoding one meshset into a part: the material is selected first, then
      each corner, in order, adds its vertex to the table and pushes the
      index. */
  function DecodeMeshset(pv: PartValue, model: Model, ms: Meshset): PartValue
    requires MeshsetOk(model, ms, false)
  {
    var mat := SelectMaterial(model, ms, pv.mat);
    var t := EmitCorners((pv.vertex, pv.indices), model, ms, mat.matflags, MeshsetCorners(ms, false).value);
    PartValue(t.0, t.1, mat)
  }

  /** The decoded part in terms of the deduplication table alone: the table
      is the old one with the corners' vertices inserted in turn, and the
      indices are the old ones followed by one index per corner. */
  lemma DecodeMeshsetIsInsertAll(pv: PartValue, model: Model, ms: Meshset)
    requires MeshsetOk(model, ms, false)
    ensures var mat := SelectMaterial(model, ms, pv.mat);
            var vs := CornerVertices(model, ms, mat.matflags, MeshsetCorners(ms, false).value);
            DecodeMeshset(pv, model, ms) == PartValue(InsertAll(pv.vertex, vs), pv.indices + Indices(pv.vertex, vs), mat)
  {
    var mat := SelectMaterial(model, ms, pv.mat);
    EmitCornersIsInsertAll((pv.vertex, pv.indices), model, ms, mat.matflags, MeshsetCorners(ms, false).value);
  }

  /** A part's vertex table and index list. */
  type Tables = (seq<Vertex>, seq<int>)

  function Tabs(part: MeshPart<int>): Tables
    reads part
  {
    (part.vertex, part.indices)
  }

  /** One AddVertex and push: the vertex is inserted and the index it was
      found or placed at is appended. */
  function Emit(t: Tables, v: Vertex): Tables
  {
    (Inserted(t.0, v), t.1 + [IndexOf(t.0, v)])
  }

  /** The tables after emitting the corners `cs` one after another. */
  function EmitCorners(t: Tables, model: Model, ms: Meshset, flags: bv32, cs: seq<Corner>): Tables
    requires CornersOk(model, ms, cs)
    decreases |cs|
  {
    if cs == [] then t
    else EmitCorners(Emit(t, CornerVertex(model, ms, flags, cs[0])), model, ms, flags, cs[1..])
  }

  /** One index is pushed per corner, and the vertex table only grows. */
  lemma {:induction false} EmitCornersLength(t: Tables, model: Model, ms: Meshset, flags: bv32, cs: seq<Corner>)
    requires CornersOk(model, ms, cs)
    ensures |EmitCorners(t, model, ms, flags, cs).1| == |t.1| + |cs|
    ensures t.0 <= EmitCorners(t, model, ms, flags, cs).0
    decreases |cs|
  {
    if cs != [] {
      var v := CornerVertex(model, ms, flags, cs[0]);
      EmitCornersLength(Emit(t, v), model, ms, flags, cs[1..]);
    }
  }

  /** Emitting a single corner is one Emit. */
  lemma EmitOne(t: Tables, model: Model, ms: Meshset, flags: bv32, c: Corner)
    requires CornerOk(model, ms, c)
    ensures CornersOk(model, ms, [c])
    ensures EmitCorners(t, model, ms, flags, [c]) == Emit(t, CornerVertex(model, ms, flags, c))
  {
    assert [c][1..] == [];
  }

  /** Emitting two runs is emitting the first, then the second. */
  lemma {:induction false} EmitCornersAppend(t: Tables, model: Model, ms: Meshset, flags: bv32, a: seq<Corner>, b: seq<Corner>)
    requires CornersOk(model, ms, a) && CornersOk(model, ms, b)
    ensures CornersOk(model, ms, a + b)
    ensures EmitCorners(t, model, ms, flags, a + b) == EmitCorners(EmitCorners(t, model, ms, flags, a), model, ms, flags, b)
    decreases |a|
  {
    CornersOkAppend(model, ms, a, b);
    if a == [] {
      assert a + b == b;
    } else {
      assert (a + b)[0] == a[0];
      assert (a + b)[1..] == a[1..] + b;
      EmitCornersAppend(Emit(t, CornerVertex(model, ms, flags, a[0])), model, ms, flags, a[1..], b);
    }
  }

  /** Emitting corners one by one is inserting their vertices: the table is
      InsertAll's and the pushed indices are Indices'. */
  lemma {:induction false} EmitCornersIsInsertAll(t: Tables, model: Model, ms: Meshset, flags: bv32, cs: seq<Corner>)
    requires CornersOk(model, ms, cs)
    ensures EmitCorners(t, model, ms, flags, cs) ==
              (InsertAll(t.0, CornerVertices(model, ms, flags, cs)), t.1 + Indices(t.0, CornerVertices(model, ms, flags, cs)))
    decreases |cs|
  {
    var vs := CornerVertices(model, ms, flags, cs);
    if cs == [] {
      assert t.1 + [] == t.1;
    } else {
      var v := CornerVertex(model, ms, flags, cs[0]);
      var tail := CornerVertices(model, ms, flags, cs[1..]);
      assert vs[0] == v && vs[1..] == tail;
      EmitCornersIsInsertAll(Emit(t, v), model, ms, flags, cs[1..]);
      InsertFirst(t.0, t.1, vs);
    }
  }

  /** Adding a non-empty run is adding its first vertex, then the rest. */
  lemma InsertFirst<V>(t: seq<V>, ix: seq<int>, vs: seq<V>)
    requires vs != []
    ensures InsertAll(t, vs) == InsertAll(Inserted(t, vs[0]), vs[1..])
    ensures ix + Indices(t, vs) == (ix + [IndexOf(t, vs[0])]) + Indices(Inserted(t, vs[0]), vs[1..])
  {
  }

  /** SA1LVL_IndexVertex: builds the vertex of point `i` with UV `j`, adds
      it to the part and pushes the index AddVertex returns. */
  method IndexVertex(part: MeshPart<int>, model: Model, ms: Meshset, i: int, j: int)
    requires CornerOk(model, ms, Corner(i, j))
    modifies part`vertex, part`indices
    ensures Tabs(part) == Emit(old(Tabs(part)), CornerVertex(model, ms, part.matflags, Corner(i, j)))
  {
    var vertex := DefaultVertex.(pos := model.points[i], nor := model.normals[i]);
    if ms.vertuv.Some? {
      var uv := ms.vertuv.value[j];
      var tx := uv.u as real / 256.0;
      var ty := uv.v as real / 256.0;
      if part.matflags & FlagFlipU != 0 {
        tx := tx * 0.5;
      }
      if part.matflags & FlagFlipV != 0 {
        ty := ty * 0.5;
      }
      vertex := vertex.(tex := Vec2(tx, ty));
    }
    assert vertex == CornerVertex(model, ms, part.matflags, Corner(i, j));
    var idx := part.AddVertex(vertex);
    part.indices := part.indices + [ToSint16(idx)];
  }

  /** Three IndexVertex calls in a row: one triangle. */
  method Triangle(part: MeshPart<int>, model: Model, ms: Meshset, a: Corner, b: Corner, c: Corner)
    requires CornersOk(model, ms, [a, b, c])
    modifies part`vertex, part`indices
    ensures Tabs(part) == EmitCorners(old(Tabs(part)), model, ms, part.matflags, [a, b, c])
  {
    assert [a, b, c] == [a] + [b] + [c];
    assert [a, b, c][1..] == [b, c] && [b, c][1..] == [c];
    assert CornerOk(model, ms, a) && CornersOk(model, ms, [b, c]);
    assert CornerOk(model, ms, b) && CornersOk(model, ms, [c]);
    ghost var t0 := Tabs(part);
    ghost var flags := part.matflags;
    IndexVertex(part, model, ms, a.point, a.uv);
    IndexVertex(part, model, ms, b.point, b.uv);
    IndexVertex(part, model, ms, c.point, c.uv);
    EmitOne(t0, model, ms, flags, a);
    EmitCornersAppend(t0, model, ms, flags, [a], [b]);
    EmitOne(EmitCorners(t0, model, ms, flags, [a]), model, ms, flags, b);
    EmitCornersAppend(t0, model, ms, flags, [a] + [b], [c]);
    EmitOne(EmitCorners(t0, model, ms, flags, [a] + [b]), model, ms, flags, c);
  }

  /** Peeling the next triangle off a strip run keeps every corner usable. */
  lemma StripStep(model: Model, ms: Meshset, base: nat, bit: bool, j0: int, l: nat, n: nat)
    requires l + 2 < n && base + n <= |ms.meshes|
    requires CornersOk(model, ms, StripFrom(ms.meshes, base, bit, j0, l, n))
    ensures StripFrom(ms.meshes, base, bit, j0, l, n) ==
              StripTri(ms.meshes, base, l, j0, Straight(bit, l)) + StripFrom(ms.meshes, base, bit, j0, l + 1, n)
    ensures CornersOk(model, ms, StripTri(ms.meshes, base, l, j0, Straight(bit, l)))
    ensures CornersOk(model, ms, StripFrom(ms.meshes, base, bit, j0, l + 1, n))
  {
    CornersOkAppend(model, ms, StripTri(ms.meshes, base, l, j0, Straight(bit, l)), StripFrom(ms.meshes, base, bit, j0, l + 1, n));
  }

  /** One strip triangle: points l, l+1, l+2 after the header at `base - 1`
      with UV indices uv, uv+1, uv+2, the first two swapped when the toggled
      winding bit is clear. */
  method StripTriangle(part: MeshPart<int>, model: Model, ms: Meshset, base: nat, l: nat, uv: int, straight: bool, ghost j0: int)
    requires base + l + 2 < |ms.meshes| && uv == j0 + l
    requires CornersOk(model, ms, StripTri(ms.meshes, base, l, j0, straight))
    modifies part`vertex, part`indices
    ensures Tabs(part) == EmitCorners(old(Tabs(part)), model, ms, part.matflags, StripTri(ms.meshes, base, l, j0, straight))
  {
    var s := ms.meshes;
    if straight {
      Triangle(part, model, ms, Corner(s[base + l], uv), Corner(s[base + l + 1], uv + 1), Corner(s[base + l + 2], uv + 2));
    } else {
      Triangle(part, model, ms, Corner(s[base + l + 1], uv + 1), Corner(s[base + l], uv), Corner(s[base + l + 2], uv + 2));
    }
  }

  /** The triangle loop of the strip branch: `first` is the Uint16 header
      (count n, winding bit `bit`); each pass toggles the winding bit and
      emits triangle l. */
  method StripLoop(part: MeshPart<int>, model: Model, ms: Meshset, base: nat, n: nat, first: int, j: int, ghost bit: bool)
    requires n < 0x8000 && (n < 3 || base + n <= |ms.meshes|)
    requires first == n || first == n + 0x8000
    requires (first >= 0x8000) == bit
    requires CornersOk(model, ms, StripFrom(ms.meshes, base, bit, j, 0, n))
    modifies part`vertex, part`indices
    ensures Tabs(part) == EmitCorners(old(Tabs(part)), model, ms, part.matflags, StripFrom(ms.meshes, base, bit, j, 0, n))
  {
    var first := first;
    var s := ms.meshes;
    ghost var flags := part.matflags;
    ghost var final := EmitCorners(Tabs(part), model, ms, flags, StripFrom(s, base, bit, j, 0, n));
    var l := 0;
    while l < n - 2
      invariant 0 <= l && (n < 3 ==> l == 0) && (n >= 3 ==> l <= n - 2)
      invariant first == n || first == n + 0x8000
      invariant (first >= 0x8000) == !Straight(bit, l)
      invariant CornersOk(model, ms, StripFrom(s, base, bit, j, l, n))
      invariant EmitCorners(Tabs(part), model, ms, flags, StripFrom(s, base, bit, j, l, n)) == final
      decreases n - 2 - l
    {
      first := if first >= 0x8000 then first - 0x8000 else first + 0x8000;
      assert Straight(bit, l + 1) == !Straight(bit, l);
      StripPass(part, model, ms, base, n, l, j, bit, first >= 0x8000, final);
      l := l + 1;
    }
  }

  /** One pass of the strip loop: triangle l is emitted and the rest of the
      run still leads to the same final tables. */
  method StripPass(part: MeshPart<int>, model: Model, ms: Meshset, base: nat, n: nat, l: nat, j: int, ghost bit: bool,
                   straight: bool, ghost final: Tables)
    requires l + 2 < n && base + n <= |ms.meshes| && straight == Straight(bit, l)
    requires CornersOk(model, ms, StripFrom(ms.meshes, base, bit, j, l, n))
    requires EmitCorners(Tabs(part), model, ms, part.matflags, StripFrom(ms.meshes, base, bit, j, l, n)) == final
    modifies part`vertex, part`indices
    ensures CornersOk(model, ms, StripFrom(ms.meshes, base, bit, j, l + 1, n))
    ensures EmitCorners(Tabs(part), model, ms, part.matflags, StripFrom(ms.meshes, base, bit, j, l + 1, n)) == final
  {
    StripStep(model, ms, base, bit, j, l, n);
    ghost var tri := StripTri(ms.meshes, base, l, j, straight);
    EmitCornersAppend(Tabs(part), model, ms, part.matflags, tri, StripFrom(ms.meshes, base, bit, j, l + 1, n));
    StripTriangle(part, model, ms, base, l, j + l, straight, j);
  }

  /** The strip branch of the decoder: a header entry, then max(n - 2, 0)
      triangles whose winding alternates, then the UV counter moves past the
      last two points. */
  method DecodeStrip(part: MeshPart<int>, model: Model, ms: Meshset, cur: nat, j: int) returns (next: nat, uv: int)
    requires Primitive(3, ms.meshes, cur, j, false).Some?
    requires CornersOk(model, ms, Primitive(3, ms.meshes, cur, j, false).value.corners)
    modifies part`vertex, part`indices
    ensures var st := Primitive(3, ms.meshes, cur, j, false).value;
            next == st.next && uv == st.uv &&
            Tabs(part) == EmitCorners(old(Tabs(part)), model, ms, part.matflags, st.corners)
  {
    var s := ms.meshes;
    var first: int := Unsigned16(s[cur]);
    var base := cur + 1;
    var n := if first >= 0x8000 then first - 0x8000 else first;
    assert StripFrom(s, base, StripBit(s[cur]), j, 0, n) == Primitive(3, s, cur, j, false).value.corners;
    StripLoop(part, model, ms, base, n, first, j, StripBit(s[cur]));
    uv := j + Max0(n - 2) + 2;
    next := base + n;
  }

  /** The triangle branch: three corners, cursor and UV counter move by 3. */
  method DecodeTriangle(part: MeshPart<int>, model: Model, ms: Meshset, cur: nat, j: int) returns (next: nat, uv: int)
    requires Primitive(0, ms.meshes, cur, j, false).Some?
    requires CornersOk(model, ms, Primitive(0, ms.meshes, cur, j, false).value.corners)
    modifies part`vertex, part`indices
    ensures var st := Primitive(0, ms.meshes, cur, j, false).value;
            next == st.next && uv == st.uv &&
            Tabs(part) == EmitCorners(old(Tabs(part)), model, ms, part.matflags, st.corners)
  {
    var s := ms.meshes;
    Triangle(part, model, ms, Corner(s[cur], j), Corner(s[cur + 1], j + 1), Corner(s[cur + 2], j + 2));
    next, uv := cur + 3, j + 3;
  }

  /** The quad branch: corners p0 p1 p2 then p2 p1 p3, cursor and UV counter
      move by 4. */
  method DecodeQuad(part: MeshPart<int>, model: Model, ms: Meshset, cur: nat, j: int) returns (next: nat, uv: int)
    requires Primitive(1, ms.meshes, cur, j, false).Some?
    requires CornersOk(model, ms, Primitive(1, ms.meshes, cur, j, false).value.corners)
    modifies part`vertex, part`indices
    ensures var st := Primitive(1, ms.meshes, cur, j, false).value;
            next == st.next && uv == st.uv &&
            Tabs(part) == EmitCorners(old(Tabs(part)), model, ms, part.matflags, st.corners)
  {
    var s := ms.meshes;
    ghost var t1 := [Corner(s[cur], j), Corner(s[cur + 1], j + 1), Corner(s[cur + 2], j + 2)];
    ghost var t2 := [Corner(s[cur + 2], j + 2), Corner(s[cur + 1], j + 1), Corner(s[cur + 3], j + 3)];
    assert Primitive(1, s, cur, j, false).value.corners == t1 + t2;
    CornersOkAppend(model, ms, t1, t2);
    EmitCornersAppend(Tabs(part), model, ms, part.matflags, t1, t2);
    Triangle(part, model, ms, Corner(s[cur], j), Corner(s[cur + 1], j + 1), Corner(s[cur + 2], j + 2));
    Triangle(part, model, ms, Corner(s[cur + 2], j + 2), Corner(s[cur + 1], j + 1), Corner(s[cur + 3], j + 3));
    next, uv := cur + 4, j + 4;
  }

  /** One pass of the decoder's switch, proved against Primitive. The unused
      type 2 emits nothing and does not move. */
  method DecodePrimitive(part: MeshPart<int>, model: Model, ms: Meshset, kind: int, cur: nat, j: int) returns (next: nat, uv: int)
    requires Primitive(kind, ms.meshes, cur, j, false).Some?
    requires CornersOk(model, ms, Primitive(kind, ms.meshes, cur, j, false).value.corners)
    modifies part`vertex, part`indices
    ensures var st := Primitive(kind, ms.meshes, cur, j, false).value;
            next == st.next && uv == st.uv &&
            Tabs(part) == EmitCorners(old(Tabs(part)), model, ms, part.matflags, st.corners)
  {
    if kind == 0 {
      next, uv := DecodeTriangle(part, model, ms, cur, j);
    } else if kind == 1 {
      next, uv := DecodeQuad(part, model, ms, cur, j);
    } else if kind == 3 {
      next, uv := DecodeStrip(part, model, ms, cur, j);
    } else {
      next, uv := cur, j;
    }
  }

  /** A run of primitives is its first primitive followed by the rest, and
      both parts are usable when the run is. */
  lemma CornersFromStep(model: Model, ms: Meshset, kind: int, cur: nat, j: int, count: nat)
    requires count > 0 && CornersFrom(kind, ms.meshes, cur, j, count, false).Some?
    requires CornersOk(model, ms, CornersFrom(kind, ms.meshes, cur, j, count, false).value)
    ensures Primitive(kind, ms.meshes, cur, j, false).Some?
    ensures var st := Primitive(kind, ms.meshes, cur, j, false).value;
            CornersFrom(kind, ms.meshes, st.next, st.uv, count - 1, false).Some? &&
            CornersFrom(kind, ms.meshes, cur, j, count, false).value ==
              st.corners + CornersFrom(kind, ms.meshes, st.next, st.uv, count - 1, false).value &&
            CornersOk(model, ms, st.corners) &&
            CornersOk(model, ms, CornersFrom(kind, ms.meshes, st.next, st.uv, count - 1, false).value)
  {
    var st := Primitive(kind, ms.meshes, cur, j, false).value;
    CornersOkAppend(model, ms, st.corners, CornersFrom(kind, ms.meshes, st.next, st.uv, count - 1, false).value);
  }

  /** The material part of SA1LVL_Loader's meshset body: when the id is in
      range the part takes the material's flags, its texture when
      USE_TEXTURE is set, and its packed diffuse colour. */
  method ApplyMaterial<I>(part: MeshPart<I>, model: Model, ms: Meshset)
    modifies part`matflags, part`texture, part`diffuse
    ensures PartMaterial(part.matflags, part.texture, part.diffuse) ==
              SelectMaterial(model, ms, old(PartMaterial(part.matflags, part.texture, part.diffuse)))
  {
    var material := ms.typeMatId % 0x4000;
    if material < |model.mats| {
      var nmaterial := model.mats[material];
      part.matflags := nmaterial.attrflags;
      part.texture := if nmaterial.attrflags & FlagUseTexture != 0 then Some(nmaterial.texId) else None;
      part.diffuse := nmaterial.r * 0x1_0000 + nmaterial.g * 0x100 + nmaterial.b;
    }
  }

  /** One pass of the primitive loop, stated against the corners still to
      come: the corners of the remaining `count` primitives from the new
      cursor are emitted into the new tables exactly as the ones from the old
      cursor would have been into the old tables. */
  method PrimitivePass(part: MeshPart<int>, model: Model, ms: Meshset, kind: int, cur: nat, j: int, count: nat)
      returns (next: nat, uv: int)
    requires count > 0 && CornersFrom(kind, ms.meshes, cur, j, count, false).Some?
    requires CornersOk(model, ms, CornersFrom(kind, ms.meshes, cur, j, count, false).value)
    modifies part`vertex, part`indices
    ensures CornersFrom(kind, ms.meshes, next, uv, count - 1, false).Some?
    ensures CornersOk(model, ms, CornersFrom(kind, ms.meshes, next, uv, count - 1, false).value)
    ensures EmitCorners(Tabs(part), model, ms, part.matflags, CornersFrom(kind, ms.meshes, next, uv, count - 1, false).value) ==
            EmitCorners(old(Tabs(part)), model, ms, part.matflags, CornersFrom(kind, ms.meshes, cur, j, count, false).value)
  {
    CornersFromStep(model, ms, kind, cur, j, count);
    ghost var st := Primitive(kind, ms.meshes, cur, j, false).value;
    EmitCornersAppend(Tabs(part), model, ms, part.matflags, st.corners, CornersFrom(kind, ms.meshes, st.next, st.uv, count - 1, false).value);
    next, uv := DecodePrimitive(part, model, ms, kind, cur, j);
  }

  /** The primitive loop of SA1LVL_Loader's meshset body: nbMesh passes of
      the switch on the polygon type, proved to emit the meshset's corners. */
  method DecodePrimitives(part: MeshPart<int>, model: Model, ms: Meshset)
    requires MeshsetOk(model, ms, false)
    modifies part`vertex, part`indices
    ensures Tabs(part) == EmitCorners(old(Tabs(part)), model, ms, part.matflags, MeshsetCorners(ms, false).value)
  {
    var polytype := ms.typeMatId / 0x4000;
    var s := ms.meshes;
    ghost var final := EmitCorners(Tabs(part), model, ms, part.matflags, MeshsetCorners(ms, false).value);
    var p, cur, j := 0, 0, 0;
    while p < ms.nbMesh
      invariant 0 <= p <= ms.nbMesh
      invariant CornersFrom(polytype, s, cur, j, ms.nbMesh - p, false).Some?
      invariant CornersOk(model, ms, CornersFrom(polytype, s, cur, j, ms.nbMesh - p, false).value)
      invariant EmitCorners(Tabs(part), model, ms, part.matflags, CornersFrom(polytype, s, cur, j, ms.nbMesh - p, false).value) == final
    {
      cur, j := PrimitivePass(part, model, ms, polytype, cur, j, ms.nbMesh - p);
      p := p + 1;
    }
  }

  /** SA1LVL_Loader's body for one meshset: the material is selected, then
      the primitives are decoded. The part ends up as DecodeMeshset
      describes. */
  method LoadMeshset(part: MeshPart<int>, model: Model, ms: Meshset)
    requires MeshsetOk(model, ms, false)
    modifies part`vertex, part`indices, part`matflags, part`texture, part`diffuse
    ensures Abs(part) == DecodeMeshset(old(Abs(part)), model, ms)
  {
    ApplyMaterial(part, model, ms);
    DecodePrimitives(part, model, ms);
  }

  /** The decoded value of a model: its parts by material id and the order
      in which the part of each id was first created. */
  datatype MeshValue = MeshValue(parts: map<int, PartValue>, order: seq<int>)

  /** The meshsets 0 .. k-1 of a model decoded one after another: each one
      goes into the part of its material id, a fresh part being created the
      first time an id is met. */
  function DecodeUpTo(model: Model, k: nat): MeshValue
    requires ModelOk(model, false) && k <= |model.meshsets|
  {
    if k == 0 then MeshValue(map[], [])
    else DecodeNext(DecodeUpTo(model, k - 1), model, model.meshsets[k - 1])
  }

  /** One meshset decoded into the part of its material id, which starts
      out empty the first time the id is met and is then appended to the
      creation order. */
  function DecodeNext(prev: MeshValue, model: Model, ms: Meshset): MeshValue
    requires MeshsetOk(model, ms, false)
  {
    var id := MaterialId(ms);
    var pv := if id in prev.parts then prev.parts[id] else EmptyPart;
    MeshValue(prev.parts[id := DecodeMeshset(pv, model, ms)],
              if id in prev.parts then prev.order else prev.order + [id])
  }

  /** One more meshset of a readable model: the longer prefix is readable
      and decodes by one more DecodeNext. */
  lemma DecodeUpToNext(model: Model, k: nat)
    requires k < |model.meshsets| && ModelOk(model, false)
    ensures MeshsetOk(model, model.meshsets[k], false)
    ensures DecodeUpTo(model, k + 1) == DecodeNext(DecodeUpTo(model, k), model, model.meshsets[k])
  {
  }

  /** The whole model decoded. */
  function DecodeModel(model: Model): MeshValue
    requires ModelOk(model, false)
  {
    DecodeUpTo(model, |model.meshsets|)
  }

  /** The material ids of the meshsets 0 .. k-1. */
  function MaterialIds(model: Model, k: nat): set<int>
    requires k <= |model.meshsets|
  {
    if k == 0 then {} else MaterialIds(model, k - 1) + {MaterialId(model.meshsets[k - 1])}
  }

  /** DecodeNext adds the meshset's material id to the keys, and appends
      it to the order exactly when it is new, so an order listing each key
      once keeps doing so. */
  lemma DecodeNextKeys(prev: MeshValue, model: Model, ms: Meshset)
    requires MeshsetOk(model, ms, false)
    requires NoDup(prev.order) && forall id :: id in prev.order <==> id in prev.parts
    ensures DecodeNext(prev, model, ms).parts.Keys == prev.parts.Keys + {MaterialId(ms)}
    ensures NoDup(DecodeNext(prev, model, ms).order)
    ensures forall id :: id in DecodeNext(prev, model, ms).order <==> id in DecodeNext(prev, model, ms).parts
  {
  }

  /** One part per material id used, no other: the parts' keys are the ids
      of the meshsets decoded so far, and the creation order lists each of
      them exactly once. */
  lemma {:induction false} DecodeUpToKeys(model: Model, k: nat)
    requires ModelOk(model, false) && k <= |model.meshsets|
    ensures DecodeUpTo(model, k).parts.Keys == MaterialIds(model, k)
    ensures NoDup(DecodeUpTo(model, k).order)
    ensures forall id :: id in DecodeUpTo(model, k).order <==> id in DecodeUpTo(model, k).parts
  {
    if k > 0 {
      DecodeUpToKeys(model, k - 1);
      DecodeNextKeys(DecodeUpTo(model, k - 1), model, model.meshsets[k - 1]);
    }
  }

  /** Every index of a part names one of its vertices. */
  predicate IndicesInRange(pv: PartValue)
  {
    forall i :: 0 <= i < |pv.indices| ==> 0 <= pv.indices[i] < |pv.vertex|
  }

  /** Decoding a meshset into a part whose indices are valid keeps them
      valid and keeps the table free of duplicates, as long as the table
      ends with at most 0x8000 vertices; each new index names the vertex of
      its corner. */
  lemma DecodeMeshsetIndices(pv: PartValue, model: Model, ms: Meshset)
    requires MeshsetOk(model, ms, false)
    requires IndicesInRange(pv) && |DecodeMeshset(pv, model, ms).vertex| <= 0x8000
    ensures var r := DecodeMeshset(pv, model, ms);
            var vs := CornerVertices(model, ms, r.mat.matflags, MeshsetCorners(ms, false).value);
            IndicesInRange(r) &&
            |r.indices| == |pv.indices| + |vs| &&
            pv.vertex <= r.vertex &&
            (forall k :: 0 <= k < |vs| ==> r.vertex[r.indices[|pv.indices| + k]] == vs[k]) &&
            (NoDup(pv.vertex) ==> NoDup(r.vertex))
  {
    var mat := SelectMaterial(model, ms, pv.mat);
    var vs := CornerVertices(model, ms, mat.matflags, MeshsetCorners(ms, false).value);
    var table := InsertAll(pv.vertex, vs);
    var added := Indices(pv.vertex, vs);
    DecodeMeshsetIsInsertAll(pv, model, ms);
    InsertAllFacts(pv.vertex, vs);
    assert pv.vertex <= table;
    forall k | 0 <= k < |vs|
      ensures 0 <= added[k] < |table| && table[added[k]] == vs[k]
    {
      IndicesValid(pv.vertex, vs, k);
    }
    IndicesAppendInRange(pv.indices, added, |pv.vertex|, |table|);
  }

  /** Indices below `lo` followed by indices below `hi >= lo` are all below `hi`. */
  lemma IndicesAppendInRange(a: seq<int>, b: seq<int>, lo: nat, hi: nat)
    requires lo <= hi
    requires forall i :: 0 <= i < |a| ==> 0 <= a[i] < lo
    requires forall i :: 0 <= i < |b| ==> 0 <= b[i] < hi
    ensures forall i :: 0 <= i < |a + b| ==> 0 <= (a + b)[i] < hi
  {
  }

  /** The abstract value of a map of parts. */
  ghost function MeshAbs(parts: map<int, MeshPart<int>>): map<int, PartValue>
    reads parts.Values
  {
    map id | id in parts :: Abs(parts[id])
  }

  /** No two material ids share a part object. */
  ghost predicate Distinct<I>(parts: map<int, MeshPart<I>>)
  {
    forall a, b :: a in parts && b in parts && a != b ==> parts[a] != parts[b]
  }

  /** `mesh.parts[material]`: the part of that id, created (empty) and
      appended to the creation order when absent. */
  method PartFor(parts: map<int, MeshPart<int>>, order: seq<int>, material: int)
      returns (parts': map<int, MeshPart<int>>, order': seq<int>)
    requires Distinct(parts)
    ensures Distinct(parts') && material in parts'
    ensures forall o :: o in parts'.Values ==> o in parts.Values || fresh(o)
    ensures MeshAbs(parts') == MeshAbs(parts)[material := if material in parts then MeshAbs(parts)[material] else EmptyPart]
    ensures order' == if material in parts then order else order + [material]
  {
    parts', order' := parts, order;
    if material !in parts {
      var part := new MeshPart<int>();
      parts' := parts[material := part];
      order' := order + [material];
    }
  }

  /** Decoding a meshset into the part of one id changes the value of that
      part as DecodeMeshset says and of no other. */
  method DecodeInto(parts: map<int, MeshPart<int>>, material: int, model: Model, ms: Meshset)
    requires MeshsetOk(model, ms, false) && Distinct(parts) && material in parts
    modifies parts[material]
    ensures MeshAbs(parts) == old(MeshAbs(parts))[material := DecodeMeshset(old(MeshAbs(parts))[material], model, ms)]
  {
    var part := parts[material];
    ghost var mid := MeshAbs(parts);
    LoadMeshset(part, model, ms);
    forall k | k in parts && k != material
      ensures Abs(parts[k]) == mid[k]
    {
      assert parts[k] != part;
    }
  }

  /** One pass of the meshset loop: `mesh.parts[material]` (created when
      absent) gets the meshset decoded into it; no other part changes. */
  method PlaceMeshset(parts: map<int, MeshPart<int>>, order: seq<int>, model: Model, ms: Meshset)
      returns (parts': map<int, MeshPart<int>>, order': seq<int>)
    requires MeshsetOk(model, ms, false) && Distinct(parts)
    modifies parts.Values
    ensures Distinct(parts')
    ensures forall o :: o in parts'.Values ==> o in parts.Values || fresh(o)
    ensures MeshValue(MeshAbs(parts'), order') == DecodeNext(MeshValue(old(MeshAbs(parts)), order), model, ms)
  {
    var material := ms.typeMatId % 0x4000;
    parts', order' := PartFor(parts, order, material);
    DecodeInto(parts', material, model, ms);
  }

  /** The mesh-building half of SA1LVL_Loader for a model seen for the first
      time: every meshset is decoded into `mesh.parts[material]`, which is
      created on first use. */
  method LoadModel(model: Model) returns (mesh: Mesh<int>)
    requires ModelOk(model, false)
    ensures Distinct(mesh.parts)
    ensures forall o :: o in mesh.parts.Values ==> fresh(o)
    ensures MeshAbs(mesh.parts) == DecodeModel(model).parts
    ensures mesh.order == DecodeModel(model).order
  {
    var parts: map<int, MeshPart<int>> := map[];
    var order: seq<int> := [];
    var k := 0;
    while k < |model.meshsets|
      invariant k <= |model.meshsets|
      invariant Distinct(parts)
      invariant forall o :: o in parts.Values ==> fresh(o)
      invariant MeshValue(MeshAbs(parts), order) == DecodeUpTo(model, k)
    {
      DecodeUpToNext(model, k);
      parts, order := PlaceMeshset(parts, order, model, model.meshsets[k]);
      k := k + 1;
    }
    mesh := Mesh(parts, order);
  }

  /** The parts of NJS_OBJECT and COL the loader reads: an object has its
      evaluation flags, the sines and cosines of its angles, its position and
      the key of its basic model (None for a null model); a COL has its flags
      and its object (None for a null object). */
  datatype Object = Object(evalflags: bv32, angles: Rotation.Angles, pos: Vec3, model: Option<int>)
  datatype Col = Col(flags: bv32, obj: Option<Object>)

  /** A COL that places a model: it has an object and the object a model. */
  predicate Placed(col: Col)
  {
    col.obj.Some? && col.obj.value.model.Some?
  }

  /** The key of the model a COL places. */
  function ModelKey(col: Col): int
    requires Placed(col)
  {
    col.obj.value.model.value
  }

  /** The instance a COL produces, if it places a model. */
  function InstanceOf(col: Col): Option<MeshInstance>
  {
    if Placed(col) then
      var o := col.obj.value;
      Some(MeshInstance(o.model, Rotation.LoaderMatrix(o.evalflags, o.angles), o.pos,
                        InstanceSurfFlag(col.flags, ColSolid, ColVisible)))
    else None
  }

  /** The instances pushed for the COLs 0 .. i-1, in order. */
  function Instances(cols: seq<Col>, i: nat): seq<MeshInstance>
    requires i <= |cols|
  {
    if i == 0 then []
    else Instances(cols, i - 1) + (if InstanceOf(cols[i - 1]).Some? then [InstanceOf(cols[i - 1]).value] else [])
  }

  /** The model keys the COLs 0 .. i-1 refer to. */
  function ModelsUsed(cols: seq<Col>, i: nat): set<int>
    requires i <= |cols|
  {
    if i == 0 then {}
    else ModelsUsed(cols, i - 1) + (if Placed(cols[i - 1]) then {ModelKey(cols[i - 1])} else {})
  }

  /** Exactly the COLs with a non-null object and model give an instance:
      each of them has its instance in the list and every instance in the
      list comes from one of them. Every instance refers to a model used,
      and its surface flag holds only the solid and visible bits. */
  lemma {:induction false} InstancesFacts(cols: seq<Col>, i: nat)
    requires i <= |cols|
    ensures |Instances(cols, i)| <= i
    ensures forall k :: 0 <= k < i && InstanceOf(cols[k]).Some? ==> InstanceOf(cols[k]).value in Instances(cols, i)
    ensures forall inst :: inst in Instances(cols, i) ==> exists k :: 0 <= k < i && InstanceOf(cols[k]) == Some(inst)
    ensures forall inst :: inst in Instances(cols, i) ==> inst.mesh.Some? && inst.mesh.value in ModelsUsed(cols, i)
    ensures forall inst :: inst in Instances(cols, i) ==> inst.surfFlag & !3 == 0
  {
    if i > 0 {
      InstancesFacts(cols, i - 1);
      if InstanceOf(cols[i - 1]).Some? {
        InstanceSurfFlagBits(cols[i - 1].flags, ColSolid, ColVisible);
      }
    }
  }

  /** The models are those the loader may meet: every model a COL refers to
      exists and can be decoded. */
  predicate ModelsOk(cols: seq<Col>, models: map<int, Model>)
  {
    forall k :: 0 <= k < |cols| && Placed(cols[k]) ==>
      ModelKey(cols[k]) in models && ModelOk(models[ModelKey(cols[k])], false)
  }

  /** A mesh holds the decoded value of a model: one part object per
      material id, each part's value and the creation order as DecodeModel
      gives them. */
  ghost predicate HoldsModel(mesh: Mesh<int>, model: Model)
    reads mesh.parts.Values
  {
    ModelOk(model, false) && Distinct(mesh.parts) &&
    MeshAbs(mesh.parts) == DecodeModel(model).parts && mesh.order == DecodeModel(model).order
  }

  /** The instance SA1LVL_Loader builds for a COL with a model: the surface
      flag remapped, the matrix turned in the order the evaluation flags
      choose, the object's position and the model as mesh key. */
  method MakeInstance(col: Col) returns (meshinstance: MeshInstance)
    requires Placed(col)
    ensures Some(meshinstance) == InstanceOf(col)
  {
    var obj := col.obj.value;
    var matrix := Rotation.BuildLoaderMatrix(obj.evalflags, obj.angles);
    meshinstance := MeshInstance(None, matrix[..], obj.pos, InstanceSurfFlag(col.flags, ColSolid, ColVisible));
    meshinstance := meshinstance.(mesh := obj.model);
  }

  /** The mesh cache: the mesh of model `id` is decoded and stored only when
      there is none yet; every mesh already stored is kept. */
  method CacheModel(lvl: Level<int>, id: int, model: Model)
    requires ModelOk(model, false)
    modifies lvl`meshes
    ensures lvl.meshes.Keys == old(lvl.meshes.Keys) + {id}
    ensures forall k :: k in old(lvl.meshes) ==> lvl.meshes[k] == old(lvl.meshes[k])
    ensures id !in old(lvl.meshes) ==> HoldsModel(lvl.meshes[id], model)
  {
    if id !in lvl.meshes {
      var mesh := LoadModel(model);
      lvl.meshes := lvl.meshes[id := mesh];
    }
  }

  /** The body of SA1LVL_Loader's COL loop for one COL. */
  method LoadCol(lvl: Level<int>, col: Col, models: map<int, Model>)
    requires Placed(col) ==> ModelKey(col) in models && ModelOk(models[ModelKey(col)], false)
    modifies lvl`meshes, lvl`meshinstances
    ensures lvl.meshinstances == old(lvl.meshinstances) + (if InstanceOf(col).Some? then [InstanceOf(col).value] else [])
    ensures lvl.meshes.Keys == old(lvl.meshes.Keys) + (if Placed(col) then {ModelKey(col)} else {})
    ensures forall id :: id in old(lvl.meshes) ==> lvl.meshes[id] == old(lvl.meshes[id])
    ensures forall id :: id in lvl.meshes && id !in old(lvl.meshes) ==> id in models && HoldsModel(lvl.meshes[id], models[id])
  {
    if col.obj.Some? && col.obj.value.model.Some? {
      var meshinstance := MakeInstance(col);
      var model := col.obj.value.model.value;
      CacheModel(lvl, model, models[model]);
      lvl.meshinstances := lvl.meshinstances + [meshinstance];
    }
  }

  /** SA1LVL_Loader's COL loop: one instance per COL with a model; a model
      is decoded the first time it is met and its mesh is reused after. */
  method Loader(lvl: Level<int>, cols: seq<Col>, models: map<int, Model>)
    requires ModelsOk(cols, models)
    modifies lvl`meshes, lvl`meshinstances
    ensures lvl.meshinstances == old(lvl.meshinstances) + Instances(cols, |cols|)
    ensures lvl.meshes.Keys == old(lvl.meshes.Keys) + ModelsUsed(cols, |cols|)
    ensures forall id :: id in old(lvl.meshes) ==> lvl.meshes[id] == old(lvl.meshes[id])
    ensures forall id :: id in lvl.meshes && id !in old(lvl.meshes) ==> id in models && HoldsModel(lvl.meshes[id], models[id])
  {
    var i := 0;
    while i < |cols|
      invariant i <= |cols|
      invariant lvl.meshinstances == old(lvl.meshinstances) + Instances(cols, i)
      invariant lvl.meshes.Keys == old(lvl.meshes.Keys) + ModelsUsed(cols, i)
      invariant forall id :: id in old(lvl.meshes) ==> lvl.meshes[id] == old(lvl.meshes[id])
      invariant forall id :: id in lvl.meshes && id !in old(lvl.meshes) ==> id in models && HoldsModel(lvl.meshes[id], models[id])
    {
      LoadCol(lvl, cols[i], models);
      i := i + 1;
    }
  }
}
