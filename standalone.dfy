/** The standalone SA1 converter: it reads the COL list of one level,
    decodes every placed model once into per-material mesh parts holding
    positions and normals only, writes one binary mesh file per part and
    routes every part of every instance to the collision or the visual
    list by the COL's raw surface flags. */
module Standalone {
  import opened Types
  import opened Dedup
  import opened Bounds
  import opened Basic
  import Rotation
  import Bytes
  import MeshFile
  import Placement
  import Salvl
  import Sa1

  /** The converter's own vertex: colours are floats defaulting to 1 and
      the normal defaults to zero. */
  datatype Vertex = Vertex(pos: Vec3, tex: Vec2, nor: Vec3, tan: Vec3, ts: real,
                           r: real, g: real, b: real, a: real)

  const DefaultVertex: Vertex := Vertex(Zero3, Zero2, Zero3, Zero3, 0.0, 1.0, 1.0, 1.0, 1.0)

  /** SALVL_Vertex::operator==, field by field. */
  predicate VertexEq(u: Vertex, w: Vertex)
  {
    u.pos.x == w.pos.x && u.pos.y == w.pos.y && u.pos.z == w.pos.z &&
    u.tex.x == w.tex.x && u.tex.y == w.tex.y &&
    u.nor.x == w.nor.x && u.nor.y == w.nor.y && u.nor.z == w.nor.z &&
    u.tan.x == w.tan.x && u.tan.y == w.tan.y && u.tan.z == w.tan.z && u.ts == w.ts &&
    u.r == w.r && u.g == w.g && u.b == w.b && u.a == w.a
  }

  /** Comparing the sixteen fields is value equality. */
  lemma VertexEqIsEquality(u: Vertex, w: Vertex)
    ensures VertexEq(u, w) <==> u == w
  {
  }

  /** The vertex IndexVertex builds for point i: its position and normal,
      every other field at its default. */
  function PointVertex(model: Model, i: int): (v: Vertex)
    requires 0 <= i < |model.points| && i < |model.normals|
    ensures v.pos == model.points[i] && v.nor == model.normals[i]
    ensures v.(pos := Zero3, nor := Zero3) == DefaultVertex
  {
    DefaultVertex.(pos := model.points[i], nor := model.normals[i])
  }

  /** A corner the converter may read: its point has a position and a
      normal. Its UV index is never read. */
  predicate PointOk(model: Model, c: Corner)
  {
    0 <= c.point < |model.points| && c.point < |model.normals|
  }

  predicate PointsOk(model: Model, cs: seq<Corner>)
    decreases |cs|
  {
    cs == [] || (PointOk(model, cs[0]) && PointsOk(model, cs[1..]))
  }

  /** PointsOk is the pointwise condition. */
  lemma {:induction false} PointsOkMeaning(model: Model, cs: seq<Corner>)
    ensures PointsOk(model, cs) <==> forall k :: 0 <= k < |cs| ==> PointOk(model, cs[k])
    decreases |cs|
  {
    if cs != [] {
      PointsOkMeaning(model, cs[1..]);
      assert forall k :: 1 <= k < |cs| ==> cs[1..][k - 1] == cs[k];
    }
  }

  lemma {:induction false} PointsOkAppend(model: Model, a: seq<Corner>, b: seq<Corner>)
    ensures PointsOk(model, a + b) <==> PointsOk(model, a) && PointsOk(model, b)
    decreases |a|
  {
    if a != [] {
      assert (a + b)[0] == a[0];
      assert (a + b)[1..] == a[1..] + b;
      PointsOkAppend(model, a[1..], b);
    } else {
      assert a + b == b;
    }
  }

  /** A meshset the converter can read: the stream holds every primitive
      and every corner's point exists. */
  predicate MeshsetOk(model: Model, ms: Meshset)
  {
    MeshsetCorners(ms, false).Some? && PointsOk(model, MeshsetCorners(ms, false).value)
  }

  predicate ModelOk(model: Model)
  {
    forall i :: 0 <= i < |model.meshsets| ==> MeshsetOk(model, model.meshsets[i])
  }

  /** A part's vertex table and index list. */
  type Tables = (seq<Vertex>, seq<int>)

  /** One AddVertex and push. */
  function Emit(t: Tables, v: Vertex): Tables
  {
    (Inserted(t.0, v), t.1 + [IndexOf(t.0, v)])
  }

  /** The tables after emitting the corners `cs` one after another. */
  function EmitPoints(t: Tables, model: Model, cs: seq<Corner>): Tables
    requires PointsOk(model, cs)
    decreases |cs|
  {
    if cs == [] then t
    else EmitPoints(Emit(t, PointVertex(model, cs[0].point)), model, cs[1..])
  }

  /** The vertices of a run of corners. */
  function PointVertices(model: Model, cs: seq<Corner>): (vs: seq<Vertex>)
    requires PointsOk(model, cs)
    ensures |vs| == |cs|
    decreases |cs|
  {
    if cs == [] then [] else [PointVertex(model, cs[0].point)] + PointVertices(model, cs[1..])
  }

  lemma EmitOne(t: Tables, model: Model, c: Corner)
    requires PointOk(model, c)
    ensures PointsOk(model, [c])
    ensures EmitPoints(t, model, [c]) == Emit(t, PointVertex(model, c.point))
  {
    assert [c][1..] == [];
  }

  /** Emitting two runs is emitting the first, then the second. */
  lemma {:induction false} EmitPointsAppend(t: Tables, model: Model, a: seq<Corner>, b: seq<Corner>)
    requires PointsOk(model, a) && PointsOk(model, b)
    ensures PointsOk(model, a + b)
    ensures EmitPoints(t, model, a + b) == EmitPoints(EmitPoints(t, model, a), model, b)
    decreases |a|
  {
    PointsOkAppend(model, a, b);
    if a == [] {
      assert a + b == b;
    } else {
      assert (a + b)[0] == a[0];
      assert (a + b)[1..] == a[1..] + b;
      EmitPointsAppend(Emit(t, PointVertex(model, a[0].point)), model, a[1..], b);
    }
  }

  /** Emitting corners one by one is inserting their vertices into the
      deduplication table. */
  lemma {:induction false} EmitPointsIsInsertAll(t: Tables, model: Model, cs: seq<Corner>)
    requires PointsOk(model, cs)
    ensures EmitPoints(t, model, cs) ==
              (InsertAll(t.0, PointVertices(model, cs)), t.1 + Indices(t.0, PointVertices(model, cs)))
    decreases |cs|
  {
    var vs := PointVertices(model, cs);
    if cs == [] {
      assert t.1 + [] == t.1;
    } else {
      var v := PointVertex(model, cs[0].point);
      var tail := PointVertices(model, cs[1..]);
      assert vs[0] == v && vs[1..] == tail;
      EmitPointsIsInsertAll(Emit(t, v), model, cs[1..]);
      assert t.1 + Indices(t.0, vs) == t.1 + [IndexOf(t.0, v)] + Indices(Inserted(t.0, v), tail);
    }
  }

  /** The positions of a vertex list. */
  function Positions(vs: seq<Vertex>): (ps: seq<Vec3>)
    ensures |ps| == |vs| && forall k :: 0 <= k < |vs| ==> ps[k] == vs[k].pos
  {
    seq(|vs|, k requires 0 <= k < |vs| => vs[k].pos)
  }

  /** Every vertex moved by -c; nothing but the position changes. */
  function Recentred(vs: seq<Vertex>, c: Vec3): (r: seq<Vertex>)
    ensures |r| == |vs|
    ensures forall k :: 0 <= k < |vs| ==> r[k].(pos := vs[k].pos) == vs[k]
  {
    seq(|vs|, k requires 0 <= k < |vs| => vs[k].(pos := Sub3(vs[k].pos, c)))
  }

  /** The centre AABBCorrect records: the middle of the box of a non-empty
      part. An empty part's centre is the origin in this model. */
  function Centre(vs: seq<Vertex>): Vec3
  {
    if |vs| > 0 then Midpoint(Positions(vs)) else Zero3
  }

  /** The size AABBCorrect records: the box extent, each axis at least 0.1. */
  function SizeOf(vs: seq<Vertex>): Vec3
  {
    if |vs| > 0 then ClampedSize(Positions(vs), 0.1) else Vec3(0.1, 0.1, 0.1)
  }

  /** Recentring moves the positions as Bounds.Shifted does; after it the
      box of a non-empty part is centred on the origin with its extent
      kept, and the recorded size is at least 0.1 and at least the extent. */
  lemma CentreFacts(vs: seq<Vertex>, axis: nat)
    requires |vs| > 0 && axis < 3
    ensures Positions(Recentred(vs, Centre(vs))) == Shifted(Positions(vs), Centre(vs))
    ensures var ps := Positions(Recentred(vs, Centre(vs)));
            MinAt(ps, axis) + MaxAt(ps, axis) == 0.0 &&
            MaxAt(ps, axis) - MinAt(ps, axis) == MaxAt(Positions(vs), axis) - MinAt(Positions(vs), axis)
    ensures Coord(SizeOf(vs), axis) >= 0.1
    ensures Coord(SizeOf(vs), axis) >= MaxAt(Positions(vs), axis) - MinAt(Positions(vs), axis)
  {
    var c := Centre(vs);
    assert Positions(Recentred(vs, c)) == Shifted(Positions(vs), c);
    RecentredBox(Positions(vs), axis);
    ClampedSizeBounds(Positions(vs), 0.1, axis);
  }

  /** SALVL_MeshPart of the converter: the deduplicated vertex table, the
      Sint16 index list, the file number and the box correction. */
  class MeshPart {
    var vertex: seq<Vertex>
    var indices: seq<int>
    var ind: Word
    var aabbCorrect: Vec3
    var size: Vec3

    constructor ()
      ensures vertex == [] && indices == [] && ind == 0
      ensures aabbCorrect == Zero3 && size == Zero3
    {
      vertex := [];
      indices := [];
      ind := 0;
      aabbCorrect := Zero3;
      size := Zero3;
    }

    function Tabs(): Tables
      reads this
    {
      (vertex, indices)
    }

    /** Returns the Uint16 position of the first equal vertex, appending
        the vertex when there is none. */
    method AddVertex(adder: Vertex) returns (j: int)
      modifies this`vertex
      ensures vertex == Inserted(old(vertex), adder)
      ensures j == Position(old(vertex), adder) % 0x1_0000
      ensures 0 <= j < 0x1_0000
    {
      InsertedFacts(vertex, adder);
      var p := Lookup(vertex, adder);
      if p == |vertex| {
        vertex := vertex + [adder];
      }
      j := p % 0x1_0000;
    }

    /** Builds the vertex of point i (position and normal only), adds it and
        pushes the index AddVertex returns, stored as a Sint16. */
    method IndexVertex(model: Model, i: int)
      requires 0 <= i < |model.points| && i < |model.normals|
      modifies this`vertex, this`indices
      ensures Tabs() == Emit(old(Tabs()), PointVertex(model, i))
    {
      var vertex := DefaultVertex.(pos := model.points[i], nor := model.normals[i]);
      var idx := AddVertex(vertex);
      indices := indices + [ToSint16(idx)];
    }

    /** Measures the box of the positions, records its size (each axis at
        least 0.1) and its centre, and moves every vertex by minus the
        centre. */
    method AABBCorrect()
      modifies this`vertex, this`size, this`aabbCorrect
      ensures size == SizeOf(old(vertex)) && aabbCorrect == Centre(old(vertex))
      ensures vertex == Recentred(old(vertex), aabbCorrect)
    {
      if |vertex| == 0 {
        size := Vec3(0.1, 0.1, 0.1);
        aabbCorrect := Zero3;
        return;
      }
      size, aabbCorrect := Measure(Positions(vertex), 0.1);
      var k := 0;
      ghost var vs0 := vertex;
      while k < |vertex|
        modifies this`vertex
        invariant |vertex| == |vs0| && k <= |vertex|
        invariant forall i :: 0 <= i < k ==> vertex[i] == vs0[i].(pos := Sub3(vs0[i].pos, aabbCorrect))
        invariant forall i :: k <= i < |vertex| ==> vertex[i] == vs0[i]
      {
        var v := vertex[k];
        vertex := vertex[k := v.(pos := Sub3(v.pos, aabbCorrect))];
        k := k + 1;
      }
      assert vertex == Recentred(vs0, aabbCorrect);
    }
  }

  /** Three IndexVertex calls in a row, for the points of the corners `tri`. */
  method Triangle(part: MeshPart, model: Model, i0: int, i1: int, i2: int, ghost tri: seq<Corner>)
    requires |tri| == 3 && tri[0].point == i0 && tri[1].point == i1 && tri[2].point == i2
    requires PointsOk(model, tri)
    modifies part`vertex, part`indices
    ensures part.Tabs() == EmitPoints(old(part.Tabs()), model, tri)
  {
    assert PointOk(model, tri[0]) && PointsOk(model, tri[1..]);
    assert PointOk(model, tri[1..][0]) && PointsOk(model, tri[1..][1..]);
    assert PointOk(model, tri[1..][1..][0]);
    ghost var t0 := part.Tabs();
    ghost var t1 := Emit(t0, PointVertex(model, i0));
    ghost var t2 := Emit(t1, PointVertex(model, i1));
    part.IndexVertex(model, i0);
    part.IndexVertex(model, i1);
    part.IndexVertex(model, i2);
    assert tri[1..][0] == tri[1] && tri[1..][1..][0] == tri[2] && tri[1..][1..][1..] == [];
    assert EmitPoints(t2, model, tri[1..][1..]) == Emit(t2, PointVertex(model, i2));
    assert EmitPoints(t1, model, tri[1..]) == EmitPoints(t2, model, tri[1..][1..]);
  }

  /** Peeling the next triangle off a strip run keeps every corner usable. */
  lemma StripStep(model: Model, ms: Meshset, base: nat, bit: bool, j0: int, l: nat, n: nat)
    requires l + 2 < n && base + n <= |ms.meshes|
    requires PointsOk(model, StripFrom(ms.meshes, base, bit, j0, l, n))
    ensures StripFrom(ms.meshes, base, bit, j0, l, n) ==
              StripTri(ms.meshes, base, l, j0, Straight(bit, l)) + StripFrom(ms.meshes, base, bit, j0, l + 1, n)
    ensures PointsOk(model, StripTri(ms.meshes, base, l, j0, Straight(bit, l)))
    ensures PointsOk(model, StripFrom(ms.meshes, base, bit, j0, l + 1, n))
  {
    PointsOkAppend(model, StripTri(ms.meshes, base, l, j0, Straight(bit, l)), StripFrom(ms.meshes, base, bit, j0, l + 1, n));
  }

  /** One strip triangle: points l, l+1, l+2 after the header, the first
      two swapped when the toggled winding bit is clear. */
  method StripTriangle(part: MeshPart, model: Model, ms: Meshset, base: nat, l: nat, straight: bool, ghost j0: int)
    requires base + l + 2 < |ms.meshes|
    requires PointsOk(model, StripTri(ms.meshes, base, l, j0, straight))
    modifies part`vertex, part`indices
    ensures part.Tabs() == EmitPoints(old(part.Tabs()), model, StripTri(ms.meshes, base, l, j0, straight))
  {
    var s := ms.meshes;
    ghost var tri := StripTri(s, base, l, j0, straight);
    if straight {
      Triangle(part, model, s[base + l], s[base + l + 1], s[base + l + 2], tri);
    } else {
      Triangle(part, model, s[base + l + 1], s[base + l], s[base + l + 2], tri);
    }
  }

  /** The triangle loop of the strip case: each pass toggles the winding
      bit of `first` and emits triangle l. */
  method StripLoop(part: MeshPart, model: Model, ms: Meshset, base: nat, n: nat, first: int, ghost j: int, ghost bit: bool)
    requires n < 0x8000 && (n < 3 || base + n <= |ms.meshes|)
    requires first == n || first == n + 0x8000
    requires (first >= 0x8000) == bit
    requires PointsOk(model, StripFrom(ms.meshes, base, bit, j, 0, n))
    modifies part`vertex, part`indices
    ensures part.Tabs() == EmitPoints(old(part.Tabs()), model, StripFrom(ms.meshes, base, bit, j, 0, n))
  {
    var first := first;
    var s := ms.meshes;
    ghost var final := EmitPoints(part.Tabs(), model, StripFrom(s, base, bit, j, 0, n));
    var l := 0;
    while l < n - 2
      invariant 0 <= l && (n < 3 ==> l == 0) && (n >= 3 ==> l <= n - 2)
      invariant first == n || first == n + 0x8000
      invariant (first >= 0x8000) == !Straight(bit, l)
      invariant PointsOk(model, StripFrom(s, base, bit, j, l, n))
      invariant EmitPoints(part.Tabs(), model, StripFrom(s, base, bit, j, l, n)) == final
      decreases n - 2 - l
    {
      first := if first >= 0x8000 then first - 0x8000 else first + 0x8000;
      assert Straight(bit, l + 1) == !Straight(bit, l);
      StripPass(part, model, ms, base, n, l, first >= 0x8000, j, bit, final);
      l := l + 1;
    }
  }

  /** One pass of the strip loop, stated against the triangles still to come. */
  method StripPass(part: MeshPart, model: Model, ms: Meshset, base: nat, n: nat, l: nat, straight: bool,
                   ghost j: int, ghost bit: bool, ghost final: Tables)
    requires l + 2 < n && base + n <= |ms.meshes| && straight == Straight(bit, l)
    requires PointsOk(model, StripFrom(ms.meshes, base, bit, j, l, n))
    requires EmitPoints(part.Tabs(), model, StripFrom(ms.meshes, base, bit, j, l, n)) == final
    modifies part`vertex, part`indices
    ensures PointsOk(model, StripFrom(ms.meshes, base, bit, j, l + 1, n))
    ensures EmitPoints(part.Tabs(), model, StripFrom(ms.meshes, base, bit, j, l + 1, n)) == final
  {
    StripStep(model, ms, base, bit, j, l, n);
    ghost var tri := StripTri(ms.meshes, base, l, j, straight);
    EmitPointsAppend(part.Tabs(), model, tri, StripFrom(ms.meshes, base, bit, j, l + 1, n));
    StripTriangle(part, model, ms, base, l, straight, j);
  }

  /** The strip case: a header entry, then max(n - 2, 0) triangles, then
      the cursor moves past the n points. */
  method DecodeStrip(part: MeshPart, model: Model, ms: Meshset, cur: nat, ghost j: int) returns (next: nat, ghost uv: int)
    requires Primitive(3, ms.meshes, cur, j, false).Some?
    requires PointsOk(model, Primitive(3, ms.meshes, cur, j, false).value.corners)
    modifies part`vertex, part`indices
    ensures var st := Primitive(3, ms.meshes, cur, j, false).value;
            next == st.next && uv == st.uv &&
            part.Tabs() == EmitPoints(old(part.Tabs()), model, st.corners)
  {
    var s := ms.meshes;
    var first: int := Unsigned16(s[cur]);
    var base := cur + 1;
    var n := if first >= 0x8000 then first - 0x8000 else first;
    assert StripFrom(s, base, StripBit(s[cur]), j, 0, n) == Primitive(3, s, cur, j, false).value.corners;
    StripLoop(part, model, ms, base, n, first, j, StripBit(s[cur]));
    uv := j + Max0(n - 2) + 2;
    next := base + n;
  }

  /** The triangle case: three corners, the cursor moves by 3. */
  method DecodeTriangle(part: MeshPart, model: Model, ms: Meshset, cur: nat, ghost j: int) returns (next: nat, ghost uv: int)
    requires Primitive(0, ms.meshes, cur, j, false).Some?
    requires PointsOk(model, Primitive(0, ms.meshes, cur, j, false).value.corners)
    modifies part`vertex, part`indices
    ensures var st := Primitive(0, ms.meshes, cur, j, false).value;
            next == st.next && uv == st.uv &&
            part.Tabs() == EmitPoints(old(part.Tabs()), model, st.corners)
  {
    var s := ms.meshes;
    Triangle(part, model, s[cur], s[cur + 1], s[cur + 2], Primitive(0, s, cur, j, false).value.corners);
    next, uv := cur + 3, j + 3;
  }

  /** The quad case: corners p0 p1 p2 then p2 p1 p3, the cursor moves by 4. */
  method DecodeQuad(part: MeshPart, model: Model, ms: Meshset, cur: nat, ghost j: int) returns (next: nat, ghost uv: int)
    requires Primitive(1, ms.meshes, cur, j, false).Some?
    requires PointsOk(model, Primitive(1, ms.meshes, cur, j, false).value.corners)
    modifies part`vertex, part`indices
    ensures var st := Primitive(1, ms.meshes, cur, j, false).value;
            next == st.next && uv == st.uv &&
            part.Tabs() == EmitPoints(old(part.Tabs()), model, st.corners)
  {
    var s := ms.meshes;
    ghost var t1 := [Corner(s[cur], j), Corner(s[cur + 1], j + 1), Corner(s[cur + 2], j + 2)];
    ghost var t2 := [Corner(s[cur + 2], j + 2), Corner(s[cur + 1], j + 1), Corner(s[cur + 3], j + 3)];
    assert Primitive(1, s, cur, j, false).value.corners == t1 + t2;
    PointsOkAppend(model, t1, t2);
    EmitPointsAppend(part.Tabs(), model, t1, t2);
    Triangle(part, model, s[cur], s[cur + 1], s[cur + 2], t1);
    Triangle(part, model, s[cur + 2], s[cur + 1], s[cur + 3], t2);
    next, uv := cur + 4, j + 4;
  }

  /** One pass of the switch on the polygon type; type 2 has no case and
      neither emits nor moves. */
  method DecodePrimitive(part: MeshPart, model: Model, ms: Meshset, kind: int, cur: nat, ghost j: int) returns (next: nat, ghost uv: int)
    requires Primitive(kind, ms.meshes, cur, j, false).Some?
    requires PointsOk(model, Primitive(kind, ms.meshes, cur, j, false).value.corners)
    modifies part`vertex, part`indices
    ensures var st := Primitive(kind, ms.meshes, cur, j, false).value;
            next == st.next && uv == st.uv &&
            part.Tabs() == EmitPoints(old(part.Tabs()), model, st.corners)
  {
    if kind == 0 {
      next, uv := DecodeTriangle(part, model, ms, cur, j);
    } else if kind == 1 {
      next, uv := DecodeQuad(part, model, ms, cur, j);
    } else if kind == 3 {
      next, uv := DecodeStrip(part, model, ms, cur, j);
    } else {
      next, uv := cur, j;
    }
  }

  /** A run of primitives is its first primitive followed by the rest. */
  lemma CornersFromStep(model: Model, ms: Meshset, kind: int, cur: nat, j: int, count: nat)
    requires count > 0 && CornersFrom(kind, ms.meshes, cur, j, count, false).Some?
    requires PointsOk(model, CornersFrom(kind, ms.meshes, cur, j, count, false).value)
    ensures Primitive(kind, ms.meshes, cur, j, false).Some?
    ensures var st := Primitive(kind, ms.meshes, cur, j, false).value;
            CornersFrom(kind, ms.meshes, st.next, st.uv, count - 1, false).Some? &&
            CornersFrom(kind, ms.meshes, cur, j, count, false).value ==
              st.corners + CornersFrom(kind, ms.meshes, st.next, st.uv, count - 1, false).value &&
            PointsOk(model, st.corners) &&
            PointsOk(model, CornersFrom(kind, ms.meshes, st.next, st.uv, count - 1, false).value)
  {
    var st := Primitive(kind, ms.meshes, cur, j, false).value;
    PointsOkAppend(model, st.corners, CornersFrom(kind, ms.meshes, st.next, st.uv, count - 1, false).value);
  }

  /** One pass of the primitive loop, stated against the corners still to come. */
  method PrimitivePass(part: MeshPart, model: Model, ms: Meshset, kind: int, cur: nat, ghost j: int, count: nat)
      returns (next: nat, ghost uv: int)
    requires count > 0 && CornersFrom(kind, ms.meshes, cur, j, count, false).Some?
    requires PointsOk(model, CornersFrom(kind, ms.meshes, cur, j, count, false).value)
    modifies part`vertex, part`indices
    ensures CornersFrom(kind, ms.meshes, next, uv, count - 1, false).Some?
    ensures PointsOk(model, CornersFrom(kind, ms.meshes, next, uv, count - 1, false).value)
    ensures EmitPoints(part.Tabs(), model, CornersFrom(kind, ms.meshes, next, uv, count - 1, false).value) ==
            EmitPoints(old(part.Tabs()), model, CornersFrom(kind, ms.meshes, cur, j, count, false).value)
  {
    CornersFromStep(model, ms, kind, cur, j, count);
    ghost var st := Primitive(kind, ms.meshes, cur, j, false).value;
    EmitPointsAppend(part.Tabs(), model, st.corners, CornersFrom(kind, ms.meshes, st.next, st.uv, count - 1, false).value);
    next, uv := DecodePrimitive(part, model, ms, kind, cur, j);
  }

  /** The primitive loop of one meshset: nbMesh passes of the switch,
      proved to emit the meshset's corners. */
  method DecodePrimitives(part: MeshPart, model: Model, ms: Meshset)
    requires MeshsetOk(model, ms)
    modifies part`vertex, part`indices
    ensures part.Tabs() == EmitPoints(old(part.Tabs()), model, MeshsetCorners(ms, false).value)
  {
    var polytype := ms.typeMatId / 0x4000;
    var s := ms.meshes;
    ghost var final := EmitPoints(part.Tabs(), model, MeshsetCorners(ms, false).value);
    var p, cur := 0, 0;
    ghost var j := 0;
    while p < ms.nbMesh
      invariant 0 <= p <= ms.nbMesh
      invariant CornersFrom(polytype, s, cur, j, ms.nbMesh - p, false).Some?
      invariant PointsOk(model, CornersFrom(polytype, s, cur, j, ms.nbMesh - p, false).value)
      invariant EmitPoints(part.Tabs(), model, CornersFrom(polytype, s, cur, j, ms.nbMesh - p, false).value) == final
    {
      cur, j := PrimitivePass(part, model, ms, polytype, cur, j, ms.nbMesh - p);
      p := p + 1;
    }
  }

  /** Decoding one meshset into a part's tables. */
  function DecodeMeshset(t: Tables, model: Model, ms: Meshset): Tables
    requires MeshsetOk(model, ms)
  {
    EmitPoints(t, model, MeshsetCorners(ms, false).value)
  }

  /** Every index of a part names one of its vertices. */
  predicate IndicesInRange(t: Tables)
  {
    forall i :: 0 <= i < |t.1| ==> 0 <= t.1[i] < |t.0|
  }

  /** Decoding a meshset into a part whose indices are valid keeps them
      valid and the table free of duplicates, as long as the table ends
      with at most 0x8000 vertices; the old vertices keep their places, one
      index is pushed per corner and it names the vertex of that corner. */
  lemma DecodeMeshsetIndices(t: Tables, model: Model, ms: Meshset)
    requires MeshsetOk(model, ms)
    requires IndicesInRange(t) && |DecodeMeshset(t, model, ms).0| <= 0x8000
    ensures var r := DecodeMeshset(t, model, ms);
            var vs := PointVertices(model, MeshsetCorners(ms, false).value);
            IndicesInRange(r) &&
            |r.1| == |t.1| + |vs| && r.1[..|t.1|] == t.1 &&
            t.0 <= r.0 &&
            (forall k :: 0 <= k < |vs| ==> r.0[r.1[|t.1| + k]] == vs[k]) &&
            (NoDup(t.0) ==> NoDup(r.0))
  {
    var vs := PointVertices(model, MeshsetCorners(ms, false).value);
    var table := InsertAll(t.0, vs);
    var added := Indices(t.0, vs);
    EmitPointsIsInsertAll(t, model, MeshsetCorners(ms, false).value);
    InsertAllFacts(t.0, vs);
    forall k | 0 <= k < |vs|
      ensures 0 <= added[k] < |table| && table[added[k]] == vs[k]
    {
      IndicesValid(t.0, vs, k);
    }
    Sa1.IndicesAppendInRange(t.1, added, |t.0|, |table|);
    assert (t.1 + added)[..|t.1|] == t.1;
  }

  /** The decoded value of a model: its parts by material id and the order
      in which the part of each id was created. */
  datatype MeshValue = MeshValue(parts: map<int, Tables>, order: seq<int>)

  /** One meshset decoded into the part of its material id, which starts
      out empty the first time the id is met. */
  function DecodeNext(prev: MeshValue, model: Model, ms: Meshset): MeshValue
    requires MeshsetOk(model, ms)
  {
    var id := MaterialId(ms);
    var t := if id in prev.parts then prev.parts[id] else ([], []);
    MeshValue(prev.parts[id := DecodeMeshset(t, model, ms)],
              if id in prev.parts then prev.order else prev.order + [id])
  }

  /** The meshsets 0 .. k-1 decoded one after another. */
  function DecodeUpTo(model: Model, k: nat): MeshValue
    requires ModelOk(model) && k <= |model.meshsets|
  {
    if k == 0 then MeshValue(map[], [])
    else DecodeNext(DecodeUpTo(model, k - 1), model, model.meshsets[k - 1])
  }

  function DecodeModel(model: Model): MeshValue
    requires ModelOk(model)
  {
    DecodeUpTo(model, |model.meshsets|)
  }

  /** One part per material id used and no other; the creation order lists
      each of them once. */
  lemma {:induction false} DecodeUpToKeys(model: Model, k: nat)
    requires ModelOk(model) && k <= |model.meshsets|
    ensures DecodeUpTo(model, k).parts.Keys == Sa1.MaterialIds(model, k)
    ensures NoDup(DecodeUpTo(model, k).order)
    ensures forall id :: id in DecodeUpTo(model, k).order <==> id in DecodeUpTo(model, k).parts
  {
    if k > 0 {
      DecodeUpToKeys(model, k - 1);
    }
  }

  /** The abstract value of a map of parts. */
  ghost function MeshAbs(parts: map<int, MeshPart>): map<int, Tables>
    reads parts.Values
  {
    map id | id in parts :: parts[id].Tabs()
  }

  /** No two material ids share a part object. */
  ghost predicate Distinct(parts: map<int, MeshPart>)
  {
    forall a, b :: a in parts && b in parts && a != b ==> parts[a] != parts[b]
  }

  /** `mesh.parts[material]`: the part of that id, created when absent. */
  method PartFor(parts: map<int, MeshPart>, order: seq<int>, material: int)
      returns (parts': map<int, MeshPart>, order': seq<int>)
    requires Distinct(parts)
    ensures Distinct(parts') && material in parts'
    ensures forall o :: o in parts'.Values ==> o in parts.Values || fresh(o)
    ensures MeshAbs(parts') == MeshAbs(parts)[material := if material in parts then MeshAbs(parts)[material] else ([], [])]
    ensures order' == if material in parts then order else order + [material]
  {
    parts', order' := parts, order;
    if material !in parts {
      var part := new MeshPart();
      parts' := parts[material := part];
      order' := order + [material];
    }
  }

  /** Decoding a meshset into the part of one id changes that part's value
      as DecodeMeshset says and no other. */
  method DecodeInto(parts: map<int, MeshPart>, material: int, model: Model, ms: Meshset)
    requires MeshsetOk(model, ms) && Distinct(parts) && material in parts
    modifies parts[material]
    ensures MeshAbs(parts) == old(MeshAbs(parts))[material := DecodeMeshset(old(MeshAbs(parts))[material], model, ms)]
  {
    var part := parts[material];
    ghost var mid := MeshAbs(parts);
    DecodePrimitives(part, model, ms);
    forall k | k in parts && k != material
      ensures parts[k].Tabs() == mid[k]
    {
      assert parts[k] != part;
    }
  }

  /** One pass of the meshset loop: the material id is the low 14 bits of
      type_matId, and `mesh.parts[material]` gets the meshset decoded into it. */
  method PlaceMeshset(parts: map<int, MeshPart>, order: seq<int>, model: Model, ms: Meshset)
      returns (parts': map<int, MeshPart>, order': seq<int>)
    requires MeshsetOk(model, ms) && Distinct(parts)
    modifies parts.Values
    ensures Distinct(parts')
    ensures forall o :: o in parts'.Values ==> o in parts.Values || fresh(o)
    ensures MeshValue(MeshAbs(parts'), order') == DecodeNext(MeshValue(old(MeshAbs(parts)), order), model, ms)
  {
    var material := ms.typeMatId % 0x4000;
    parts', order' := PartFor(parts, order, material);
    DecodeInto(parts', material, model, ms);
  }

  /** SALVL_Mesh: parts by material id, with their creation order, which
      is the order the writing and placing loops visit them in this model. */
  datatype Mesh = Mesh(parts: map<int, MeshPart>, order: seq<int>)

  /** The mesh of a model seen for the first time: every meshset decoded
      into the part of its material id. */
  method LoadModel(model: Model) returns (mesh: Mesh)
    requires ModelOk(model)
    ensures Distinct(mesh.parts)
    ensures forall o :: o in mesh.parts.Values ==> fresh(o)
    ensures MeshAbs(mesh.parts) == DecodeModel(model).parts
    ensures mesh.order == DecodeModel(model).order
  {
    var parts: map<int, MeshPart> := map[];
    var order: seq<int> := [];
    var k := 0;
    while k < |model.meshsets|
      invariant k <= |model.meshsets|
      invariant Distinct(parts)
      invariant forall o :: o in parts.Values ==> fresh(o)
      invariant MeshValue(MeshAbs(parts), order) == DecodeUpTo(model, k)
    {
      parts, order := PlaceMeshset(parts, order, model, model.meshsets[k]);
      k := k + 1;
    }
    mesh := Mesh(parts, order);
  }

  /** The instance the converter builds for a COL with a model: the COL's
      flags unchanged, the matrix turned in the converter's order, the
      object's position and the model as mesh key. */
  function InstanceOf(col: Sa1.Col): Option<Salvl.MeshInstance>
  {
    if Sa1.Placed(col) then
      var o := col.obj.value;
      Some(Salvl.MeshInstance(o.model, Rotation.StandaloneMatrix(o.evalflags, o.angles), o.pos, col.flags))
    else None
  }

  /** The instances pushed for the COLs 0 .. i-1, in order. */
  function Instances(cols: seq<Sa1.Col>, i: nat): seq<Salvl.MeshInstance>
    requires i <= |cols|
  {
    if i == 0 then []
    else Instances(cols, i - 1) + (if Sa1.Placed(cols[i - 1]) then [InstanceOf(cols[i - 1]).value] else [])
  }

  /** Exactly the COLs with an object and a model give an instance, in COL
      order, and each instance keeps its COL's raw flags. */
  lemma {:induction false} InstancesFacts(cols: seq<Sa1.Col>, i: nat)
    requires i <= |cols|
    ensures |Instances(cols, i)| <= i
    ensures forall k :: 0 <= k < i && Sa1.Placed(cols[k]) ==> InstanceOf(cols[k]).value in Instances(cols, i)
    ensures forall inst :: inst in Instances(cols, i) ==>
              exists k :: 0 <= k < i && Sa1.Placed(cols[k]) && InstanceOf(cols[k]) == Some(inst) && inst.surfFlag == cols[k].flags
  {
    if i > 0 {
      InstancesFacts(cols, i - 1);
    }
  }

  /** Every instance has a 16-entry matrix and refers to a model the COLs use. */
  lemma {:induction false} InstancesUsable(cols: seq<Sa1.Col>, i: nat)
    requires i <= |cols|
    ensures forall inst :: inst in Instances(cols, i) ==>
              |inst.matrix| == 16 && inst.mesh.Some? && inst.mesh.value in Sa1.ModelsUsed(cols, i)
  {
    if i > 0 {
      InstancesUsable(cols, i - 1);
    }
  }

  /** The models are those the converter may meet. */
  predicate ModelsOk(cols: seq<Sa1.Col>, models: map<int, Model>)
  {
    forall k :: 0 <= k < |cols| && Sa1.Placed(cols[k]) ==>
      Sa1.ModelKey(cols[k]) in models && ModelOk(models[Sa1.ModelKey(cols[k])])
  }

  /** A mesh holds the decoded value of a model. */
  ghost predicate HoldsModel(mesh: Mesh, model: Model)
    reads mesh.parts.Values
  {
    ModelOk(model) && Distinct(mesh.parts) &&
    MeshAbs(mesh.parts) == DecodeModel(model).parts && mesh.order == DecodeModel(model).order
  }

  /** No two (mesh, material) pairs share a part object. */
  ghost predicate Disjoint(meshes: map<int, Mesh>)
  {
    forall k1, a, k2, b ::
      (k1 in meshes && k2 in meshes && a in meshes[k1].parts && b in meshes[k2].parts && (k1 != k2 || a != b)) ==>
        meshes[k1].parts[a] != meshes[k2].parts[b]
  }

  /** A mesh whose parts are new objects, distinct from each other, can be
      added to a disjoint map of meshes. */
  lemma DisjointAdd(meshes: map<int, Mesh>, key: int, mesh: Mesh)
    requires Disjoint(meshes) && Distinct(mesh.parts) && key !in meshes
    requires forall k, a :: k in meshes && a in meshes[k].parts ==> meshes[k].parts[a] !in mesh.parts.Values
    ensures Disjoint(meshes[key := mesh])
  {
    var m := meshes[key := mesh];
    forall k1, a, k2, b | k1 in m && k2 in m && a in m[k1].parts && b in m[k2].parts && (k1 != k2 || a != b)
      ensures m[k1].parts[a] != m[k2].parts[b]
    {
      if k1 == key && k2 != key {
        assert m[k1].parts[a] in mesh.parts.Values;
      } else if k2 == key && k1 != key {
        assert m[k2].parts[b] in mesh.parts.Values;
      }
    }
  }

  /** The instance for a COL with a model. */
  method MakeInstance(col: Sa1.Col) returns (meshinstance: Salvl.MeshInstance)
    requires Sa1.Placed(col)
    ensures Some(meshinstance) == InstanceOf(col)
  {
    var obj := col.obj.value;
    var matrix := Rotation.BuildStandaloneMatrix(obj.evalflags, obj.angles);
    meshinstance := Salvl.MeshInstance(obj.model, matrix[..], obj.pos, col.flags);
  }

  /** The body of the COL loop for one COL: a COL with an object and a
      model pushes its instance, and its model is decoded unless a mesh for
      it exists already. */
  method ReadCol(meshes: map<int, Mesh>, instances: seq<Salvl.MeshInstance>, col: Sa1.Col, models: map<int, Model>)
      returns (meshes': map<int, Mesh>, instances': seq<Salvl.MeshInstance>)
    requires Sa1.Placed(col) ==> Sa1.ModelKey(col) in models && ModelOk(models[Sa1.ModelKey(col)])
    requires Disjoint(meshes)
    ensures Disjoint(meshes')
    ensures instances' == instances + (if Sa1.Placed(col) then [InstanceOf(col).value] else [])
    ensures meshes'.Keys == meshes.Keys + (if Sa1.Placed(col) then {Sa1.ModelKey(col)} else {})
    ensures forall k :: k in meshes ==> meshes'[k] == meshes[k]
    ensures forall k :: k in meshes' && k !in meshes ==>
              k in models && HoldsModel(meshes'[k], models[k]) && forall o :: o in meshes'[k].parts.Values ==> fresh(o)
  {
    meshes', instances' := meshes, instances;
    if col.obj.Some? && col.obj.value.model.Some? {
      var meshinstance := MakeInstance(col);
      var model := col.obj.value.model.value;
      if model !in meshes {
        var mesh := LoadModel(models[model]);
        DisjointAdd(meshes, model, mesh);
        meshes' := meshes[model := mesh];
      }
      instances' := instances + [meshinstance];
    }
  }

  /** The COL loop: one instance per COL with a model, each model decoded
      the first time it is met. */
  method ReadCols(cols: seq<Sa1.Col>, models: map<int, Model>) returns (meshes: map<int, Mesh>, instances: seq<Salvl.MeshInstance>)
    requires ModelsOk(cols, models)
    ensures instances == Instances(cols, |cols|)
    ensures meshes.Keys == Sa1.ModelsUsed(cols, |cols|)
    ensures forall k :: k in meshes ==> k in models && HoldsModel(meshes[k], models[k])
    ensures Disjoint(meshes)
    ensures forall k, o :: k in meshes && o in meshes[k].parts.Values ==> fresh(o)
  {
    meshes, instances := map[], [];
    var i := 0;
    while i < |cols|
      invariant i <= |cols|
      invariant instances == Instances(cols, i)
      invariant meshes.Keys == Sa1.ModelsUsed(cols, i)
      invariant forall k :: k in meshes ==> k in models && HoldsModel(meshes[k], models[k])
      invariant Disjoint(meshes)
      invariant forall k, o :: k in meshes && o in meshes[k].parts.Values ==> fresh(o)
    {
      meshes, instances := ReadCol(meshes, instances, cols[i], models);
      i := i + 1;
    }
  }

  /** The order lists only parts the mesh has. */
  predicate MeshOk(mesh: Mesh)
  {
    forall i :: 0 <= i < |mesh.order| ==> mesh.order[i] in mesh.parts
  }

  /** The (mesh key, material id) pairs the writing loop visits: the meshes
      in the order `keys`, and the parts of each in its order. */
  function Pairs(orders: map<int, seq<int>>, keys: seq<int>): (r: seq<(int, int)>)
    requires forall k :: k in keys ==> k in orders
    ensures forall n :: 0 <= n < |r| ==> r[n].0 in keys && r[n].0 in orders && r[n].1 in orders[r[n].0]
  {
    if keys == [] then []
    else
      var k := keys[|keys| - 1];
      Pairs(orders, keys[..|keys| - 1]) + seq(|orders[k]|, i requires 0 <= i < |orders[k]| => (k, orders[k][i]))
  }

  /** With no key listed twice and no id listed twice in an order, no pair
      is visited twice; every listed part is visited. */
  lemma {:induction false} PairsDistinct(orders: map<int, seq<int>>, keys: seq<int>)
    requires forall k :: k in keys ==> k in orders && NoDup(orders[k])
    requires NoDup(keys)
    ensures NoDup(Pairs(orders, keys))
    ensures forall k, id :: k in keys && id in orders[k] ==> (k, id) in Pairs(orders, keys)
  {
    if keys != [] {
      var k := keys[|keys| - 1];
      var init := keys[..|keys| - 1];
      assert forall x :: x in init ==> x in keys;
      PairsDistinct(orders, init);
      var left := Pairs(orders, init);
      var right := seq(|orders[k]|, i requires 0 <= i < |orders[k]| => (k, orders[k][i]));
      assert k !in init;
      forall i, j | 0 <= i < j < |left + right|
        ensures (left + right)[i] != (left + right)[j]
      {
        if j < |left| {
        } else if i >= |left| {
          assert (left + right)[i] == right[i - |left|];
        } else {
          assert (left + right)[i].0 in init;
        }
      }
      forall k', id | k' in keys && id in orders[k']
        ensures (k', id) in left + right
      {
        if k' == k {
          var i :| 0 <= i < |orders[k]| && orders[k][i] == id;
          assert right[i] == (k, id);
        } else {
          assert k' in init;
        }
      }
    }
  }

  /** The orders of the meshes. */
  function OrdersOf(meshes: map<int, Mesh>): map<int, seq<int>>
  {
    map k | k in meshes :: meshes[k].order
  }

  /** Every part object of the meshes. */
  function Objects(meshes: map<int, Mesh>): set<MeshPart>
  {
    set k, p | k in meshes && p in meshes[k].parts.Values :: p
  }

  /** The part objects of the visited pairs. */
  function PartList(meshes: map<int, Mesh>, pairs: seq<(int, int)>): (r: seq<MeshPart>)
    requires forall n :: 0 <= n < |pairs| ==> pairs[n].0 in meshes && pairs[n].1 in meshes[pairs[n].0].parts
    ensures |r| == |pairs|
    ensures forall n :: 0 <= n < |pairs| ==> r[n] == meshes[pairs[n].0].parts[pairs[n].1]
  {
    seq(|pairs|, n requires 0 <= n < |pairs| && pairs[n].0 in meshes && pairs[n].1 in meshes[pairs[n].0].parts =>
                   meshes[pairs[n].0].parts[pairs[n].1])
  }

  /** The decoded part of a pair, and an empty one for a pair of no model. */
  function ValueOf(models: map<int, Model>, p: (int, int)): Tables
  {
    if p.0 in models && ModelOk(models[p.0]) && p.1 in DecodeModel(models[p.0]).parts
    then DecodeModel(models[p.0]).parts[p.1] else ([], [])
  }

  /** The creation orders of the models' meshes. */
  function SpecOrders(models: map<int, Model>, keys: seq<int>): map<int, seq<int>>
  {
    map k | k in keys && k in models && ModelOk(models[k]) :: DecodeModel(models[k]).order
  }

  /** Each model used can be decoded. */
  predicate KeysOk(models: map<int, Model>, keys: seq<int>)
  {
    forall k :: k in keys ==> k in models && ModelOk(models[k])
  }

  /** The attributes a part's vertex records carry. */
  function AttribsOf(vs: seq<Vertex>): (r: seq<MeshFile.Attribs>)
    ensures |r| == |vs|
  {
    seq(|vs|, k requires 0 <= k < |vs| => MeshFile.Attribs(vs[k].pos, vs[k].nor, vs[k].tex))
  }

  /** The file of a part: its vertices moved by minus its centre, then its
      indices. */
  function PartFile(t: Tables, bits: real -> Word): seq<byte>
  {
    MeshFile.File(AttribsOf(Recentred(t.0, Centre(t.0))), t.1, bits)
  }

  /** The files written, in visiting order: file n is "n.msh". */
  function SpecFiles(models: map<int, Model>, keys: seq<int>, bits: real -> Word): seq<seq<byte>>
    requires KeysOk(models, keys)
  {
    var pairs := Pairs(SpecOrders(models, keys), keys);
    seq(|pairs|, n requires 0 <= n < |pairs| => PartFile(ValueOf(models, pairs[n]), bits))
  }

  /** The part references the placing loop reads for a decoded model: each
      part's material id and its centre, in creation order. */
  function SpecRefs(models: map<int, Model>, used: set<int>): map<int, seq<Placement.PartRef>>
  {
    map k | k in used && k in models && ModelOk(models[k]) ::
      var mv := DecodeModel(models[k]);
      seq(|mv.order|, i requires 0 <= i < |mv.order| => Placement.PartRef(mv.order[i], Centre(ValueOf(models, (k, mv.order[i])).0)))
  }

  /** The references of the first k parts of a mesh, in creation order. */
  function RefsOf(mesh: Mesh, k: nat): (r: seq<Placement.PartRef>)
    requires MeshOk(mesh) && k <= |mesh.order|
    reads mesh.parts.Values
    ensures |r| == k
    ensures forall i :: 0 <= i < k ==> r[i] == Placement.PartRef(mesh.order[i], mesh.parts[mesh.order[i]].aabbCorrect)
  {
    if k == 0 then []
    else RefsOf(mesh, k - 1) + [Placement.PartRef(mesh.order[k - 1], mesh.parts[mesh.order[k - 1]].aabbCorrect)]
  }

  /** The part references of the meshes as they are after writing. */
  function Refs(meshes: map<int, Mesh>): map<int, seq<Placement.PartRef>>
    requires forall k :: k in meshes ==> MeshOk(meshes[k])
    reads Objects(meshes)
  {
    map k | k in meshes :: RefsOf(meshes[k], |meshes[k].order|)
  }

  /** One pass of the writing loop: the part gets its file number, its box
      is corrected, and its file is written. */
  method WritePart(part: MeshPart, ghost t: Tables, ind: Word, bits: real -> Word) returns (file: seq<byte>)
    requires part.Tabs() == t
    modifies part
    ensures Written(part, t, ind)
    ensures file == PartFile(t, bits)
  {
    part.ind := ind;
    part.AABBCorrect();
    var out := new Bytes.ByteStream();
    MeshFile.WriteFile(out, AttribsOf(part.vertex), part.indices, bits);
    file := out.data;
  }

  /** A part after writing: file number `ind`, its box corrected from the
      value `t` it held, its indices kept. */
  ghost predicate Written(part: MeshPart, t: Tables, ind: Word)
    reads part
  {
    part.ind == ind && part.indices == t.1 &&
    part.aabbCorrect == Centre(t.0) && part.size == SizeOf(t.0) &&
    part.vertex == Recentred(t.0, part.aabbCorrect)
  }

  /** The writing loop over all parts in visiting order: part n gets file
      number n (an unsigned int, so modulo 2^32), is recentred and has its
      file written. */
  method WriteParts(parts: seq<MeshPart>, ghost vals: seq<Tables>, bits: real -> Word) returns (files: seq<seq<byte>>)
    requires |vals| == |parts| && forall n :: 0 <= n < |parts| ==> parts[n].Tabs() == vals[n]
    requires forall i, j :: 0 <= i < j < |parts| ==> parts[i] != parts[j]
    modifies set i | 0 <= i < |parts| :: parts[i]
    ensures |files| == |parts|
    ensures forall n :: 0 <= n < |parts| ==> Written(parts[n], vals[n], n % 0x1_0000_0000)
    ensures forall n :: 0 <= n < |parts| ==> files[n] == PartFile(vals[n], bits)
  {
    files := [];
    var meshInd: Word := 0;
    var n := 0;
    while n < |parts|
      invariant n <= |parts| && |files| == n && meshInd == n % 0x1_0000_0000
      invariant forall i :: 0 <= i < n ==> Written(parts[i], vals[i], i % 0x1_0000_0000)
      invariant forall i :: 0 <= i < n ==> files[i] == PartFile(vals[i], bits)
      invariant forall i :: n <= i < |parts| ==> parts[i].Tabs() == vals[i]
    {
      var file := WritePart(parts[n], vals[n], meshInd, bits);
      files := files + [file];
      WordSucc(n);
      meshInd := (meshInd + 1) % 0x1_0000_0000;
      n := n + 1;
    }
  }

  /** What reading the COLs leaves: every mesh holds the decoded value of
      its model, and no part object is shared. */
  ghost predicate HoldsAll(meshes: map<int, Mesh>, models: map<int, Model>)
    reads Objects(meshes)
  {
    Disjoint(meshes) && forall k :: k in meshes ==> k in models && HoldsModel(meshes[k], models[k])
  }

  /** The meshes' orders are the decoded ones, list each part once, and
      name only parts the meshes have. */
  lemma MeshOrders(meshes: map<int, Mesh>, models: map<int, Model>, keys: seq<int>)
    requires HoldsAll(meshes, models)
    requires forall k :: k in keys <==> k in meshes
    ensures KeysOk(models, keys)
    ensures forall k :: k in meshes ==> MeshOk(meshes[k]) && NoDup(meshes[k].order)
    ensures OrdersOf(meshes) == SpecOrders(models, keys)
  {
    forall k | k in meshes
      ensures MeshOk(meshes[k]) && NoDup(meshes[k].order)
    {
      var mv := DecodeModel(models[k]);
      DecodeUpToKeys(models[k], |models[k].meshsets|);
      forall i | 0 <= i < |meshes[k].order|
        ensures meshes[k].order[i] in meshes[k].parts
      {
        assert meshes[k].order[i] in mv.order;
        assert meshes[k].order[i] in MeshAbs(meshes[k].parts);
      }
    }
    assert forall k :: k in keys ==> k in models && ModelOk(models[k]);
    var orders := SpecOrders(models, keys);
    forall k | k in meshes
      ensures k in orders && orders[k] == meshes[k].order
    {
      assert HoldsModel(meshes[k], models[k]);
    }
    assert forall k :: k in orders ==> k in meshes;
    assert OrdersOf(meshes) == orders;
  }

  /** The writing loop visits the decoded pairs on part objects that hold
      the decoded values. */
  lemma PairsOfMeshes(meshes: map<int, Mesh>, models: map<int, Model>, keys: seq<int>)
    requires HoldsAll(meshes, models)
    requires forall k :: k in keys <==> k in meshes
    requires KeysOk(models, keys) && OrdersOf(meshes) == SpecOrders(models, keys)
    requires forall k :: k in meshes ==> MeshOk(meshes[k])
    ensures var pairs := Pairs(SpecOrders(models, keys), keys);
            forall n :: 0 <= n < |pairs| ==>
              pairs[n].0 in meshes && pairs[n].1 in meshes[pairs[n].0].parts &&
              meshes[pairs[n].0].parts[pairs[n].1].Tabs() == ValueOf(models, pairs[n])
  {
    var pairs := Pairs(SpecOrders(models, keys), keys);
    forall n | 0 <= n < |pairs|
      ensures pairs[n].0 in meshes && pairs[n].1 in meshes[pairs[n].0].parts
      ensures meshes[pairs[n].0].parts[pairs[n].1].Tabs() == ValueOf(models, pairs[n])
    {
      var (k, id) := pairs[n];
      assert id in meshes[k].order;
      var i :| 0 <= i < |meshes[k].order| && meshes[k].order[i] == id;
      assert id in MeshAbs(meshes[k].parts);
    }
  }

  /** Distinct pairs of a disjoint map of meshes are distinct part objects. */
  lemma PairsObjects(meshes: map<int, Mesh>, pairs: seq<(int, int)>)
    requires Disjoint(meshes) && NoDup(pairs)
    requires forall n :: 0 <= n < |pairs| ==> pairs[n].0 in meshes && pairs[n].1 in meshes[pairs[n].0].parts
    ensures forall i, j :: 0 <= i < j < |pairs| ==> PartList(meshes, pairs)[i] != PartList(meshes, pairs)[j]
  {
    var ps := PartList(meshes, pairs);
    forall i, j | 0 <= i < j < |pairs|
      ensures ps[i] != ps[j]
    {
      var (k1, a) := pairs[i];
      var (k2, b) := pairs[j];
      assert k1 != k2 || a != b;
      assert meshes[k1].parts[a] != meshes[k2].parts[b];
    }
  }

  /** After writing, the references the placing loop reads are the pure ones. */
  lemma RefsAfterWrite(meshes: map<int, Mesh>, models: map<int, Model>, keys: seq<int>, pairs: seq<(int, int)>)
    requires forall k :: k in keys <==> k in meshes
    requires forall k :: k in meshes ==> MeshOk(meshes[k])
    requires KeysOk(models, keys) && OrdersOf(meshes) == SpecOrders(models, keys)
    requires forall k, id :: k in meshes && id in meshes[k].order ==> (k, id) in pairs
    requires forall n :: 0 <= n < |pairs| ==>
               (pairs[n].0 in meshes && pairs[n].1 in meshes[pairs[n].0].parts &&
                meshes[pairs[n].0].parts[pairs[n].1].aabbCorrect == Centre(ValueOf(models, pairs[n]).0))
    ensures Refs(meshes) == SpecRefs(models, meshes.Keys)
  {
    var refs := Refs(meshes);
    var spec := SpecRefs(models, meshes.Keys);
    forall k | k in meshes
      ensures k in spec && refs[k] == spec[k]
    {
      assert OrdersOf(meshes)[k] == meshes[k].order;
      forall i | 0 <= i < |refs[k]|
        ensures refs[k][i] == spec[k][i]
      {
        var id := meshes[k].order[i];
        var n :| 0 <= n < |pairs| && pairs[n] == (k, id);
      }
    }
    assert refs.Keys == spec.Keys;
  }

  /** Every instance can be placed once each model used has references. */
  lemma InstancesPlaceable(cols: seq<Sa1.Col>, refs: map<int, seq<Placement.PartRef>>)
    requires refs.Keys == Sa1.ModelsUsed(cols, |cols|)
    ensures Placement.InstancesOk(Instances(cols, |cols|), refs)
  {
    var insts := Instances(cols, |cols|);
    InstancesUsable(cols, |cols|);
    assert forall i :: 0 <= i < |insts| ==> insts[i] in insts;
  }

  /** Files written from the decoded values of the visited pairs are the
      specified ones. */
  lemma FilesOfValues(files: seq<seq<byte>>, models: map<int, Model>, keys: seq<int>, bits: real -> Word)
    requires KeysOk(models, keys)
    requires var pairs := Pairs(SpecOrders(models, keys), keys);
             |files| == |pairs| && forall n :: 0 <= n < |pairs| ==> files[n] == PartFile(ValueOf(models, pairs[n]), bits)
    ensures files == SpecFiles(models, keys, bits)
  {
  }

  /** The writing loop over the meshes in the order `keys`, and over each
      mesh's parts in creation order: each file is that of a decoded part,
      recentred, and afterwards every part's reference carries its decoded
      centre. */
  method WriteMeshes(meshes: map<int, Mesh>, models: map<int, Model>, keys: seq<int>, bits: real -> Word)
      returns (files: seq<seq<byte>>)
    requires HoldsAll(meshes, models)
    requires NoDup(keys) && forall k :: k in keys <==> k in meshes
    modifies Objects(meshes)
    ensures KeysOk(models, keys) && forall k :: k in meshes ==> MeshOk(meshes[k])
    ensures files == SpecFiles(models, keys, bits)
    ensures Refs(meshes) == SpecRefs(models, meshes.Keys)
  {
    MeshOrders(meshes, models, keys);
    PairsOfMeshes(meshes, models, keys);
    ghost var pairs := Pairs(SpecOrders(models, keys), keys);
    PairsDistinct(SpecOrders(models, keys), keys);
    PairsObjects(meshes, pairs);
    var parts := PartList(meshes, Pairs(OrdersOf(meshes), keys));
    assert forall n :: 0 <= n < |parts| ==> parts[n] in meshes[pairs[n].0].parts.Values;
    ghost var vals := seq(|pairs|, n requires 0 <= n < |pairs| => ValueOf(models, pairs[n]));
    files := WriteParts(parts, vals, bits);
    assert forall n :: 0 <= n < |pairs| ==> files[n] == PartFile(ValueOf(models, pairs[n]), bits);
    FilesOfValues(files, models, keys, bits);
    RefsAfterWrite(meshes, models, keys, pairs);
  }

  /** The converter from the COL list to the mesh files and the two lists
      of part instances. `keys` is the order in which the mesh map is
      visited, which the source leaves to its hash map: every model used,
      each once. The files are those of the decoded parts, recentred, in
      that order; the collision and visual lists are Placement.Routed over
      the instances with the raw flags 0x1 (solid) and 0x80000000
      (visible), each part placed at its decoded centre. */
  method Convert(cols: seq<Sa1.Col>, models: map<int, Model>, keys: seq<int>, bits: real -> Word)
      returns (files: seq<seq<byte>>, collision: seq<Placement.PartInstance>, visual: seq<Placement.PartInstance>)
    requires ModelsOk(cols, models)
    requires NoDup(keys) && forall k :: k in keys <==> k in Sa1.ModelsUsed(cols, |cols|)
    ensures KeysOk(models, keys)
    ensures files == SpecFiles(models, keys, bits)
    ensures Placement.InstancesOk(Instances(cols, |cols|), SpecRefs(models, Sa1.ModelsUsed(cols, |cols|)))
    ensures collision == Placement.Routed(Instances(cols, |cols|), SpecRefs(models, Sa1.ModelsUsed(cols, |cols|)),
                                          Sa1.ColSolid, Sa1.ColVisible, Placement.Collision, |Instances(cols, |cols|)|)
    ensures visual == Placement.Routed(Instances(cols, |cols|), SpecRefs(models, Sa1.ModelsUsed(cols, |cols|)),
                                       Sa1.ColSolid, Sa1.ColVisible, Placement.Visual, |Instances(cols, |cols|)|)
  {
    var meshes, instances := ReadCols(cols, models);
    files := WriteMeshes(meshes, models, keys, bits);
    var refs := Refs(meshes);
    InstancesPlaceable(cols, refs);
    collision, visual := Placement.Place(instances, refs, Sa1.ColSolid, Sa1.ColVisible);
  }
}
