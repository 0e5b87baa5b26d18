/** The intermediate level representation shared by the SA1 and SA2 loaders
    and the emitter: vertices, the per-material mesh part with its
    deduplicating vertex table and bounding-box correction, meshes,
    instances and the level container. */
module Salvl {
  import opened Types
  import opened Dedup
  import opened Bounds
  import Rotation

  /** SALVL_SURFFLAG_SOLID and SALVL_SURFFLAG_VISIBLE. */
  const SurfSolid: bv32 := 1
  const SurfVisible: bv32 := 2

  /** SALVL_FLAG_REMAP: `to` when any bit of `from` is set in `x`, else 0. */
  function FlagRemap(x: bv32, from: bv32, to: bv32): bv32
  {
    if x & from != 0 then to else 0
  }

  /** The instance flags both loaders compute from a COL's flags: the game's
      solid bit becomes bit 0 and the game's visible bit becomes bit 1. */
  function InstanceSurfFlag(colFlags: bv32, solid: bv32, visible: bv32): bv32
  {
    0 | FlagRemap(colFlags, solid, SurfSolid) | FlagRemap(colFlags, visible, SurfVisible)
  }

  /** Bit 0 is set iff a solid bit is set, bit 1 iff a visible bit is set,
      and no other bit is ever set. */
  lemma InstanceSurfFlagBits(colFlags: bv32, solid: bv32, visible: bv32)
    ensures InstanceSurfFlag(colFlags, solid, visible) & SurfSolid != 0 <==> colFlags & solid != 0
    ensures InstanceSurfFlag(colFlags, solid, visible) & SurfVisible != 0 <==> colFlags & visible != 0
    ensures InstanceSurfFlag(colFlags, solid, visible) & !3 == 0
  {
  }

  /** SALVL_Vertex. Colours are bytes in this revision. */
  datatype Vertex = Vertex(pos: Vec3, tex: Vec2, nor: Vec3, tan: Vec3, ts: real,
                           r: byte, g: byte, b: byte, a: byte)

  /** A default-constructed vertex: normal (0, 1, 0), opaque white. */
  const DefaultVertex: Vertex :=
    Vertex(Zero3, Zero2, Vec3(0.0, 1.0, 0.0), Zero3, 0.0, 255, 255, 255, 255)

  /** SALVL_Vertex::operator==, field by field. */
  predicate VertexEq(u: Vertex, w: Vertex)
  {
    u.pos.x == w.pos.x && u.pos.y == w.pos.y && u.pos.z == w.pos.z &&
    u.tex.x == w.tex.x && u.tex.y == w.tex.y &&
    u.nor.x == w.nor.x && u.nor.y == w.nor.y && u.nor.z == w.nor.z &&
    u.tan.x == w.tan.x && u.tan.y == w.tan.y && u.tan.z == w.tan.z && u.ts == w.ts &&
    u.r == w.r && u.g == w.g && u.b == w.b && u.a == w.a
  }

  /** Comparing all sixteen fields is exactly value equality, so the table
      may compare vertices with ==. */
  lemma VertexEqIsEquality(u: Vertex, w: Vertex)
    ensures VertexEq(u, w) <==> u == w
  {
  }

  /** SALVL_MeshFace: three Sint16 vertex indices. */
  datatype Face = Face(i0: int, i1: int, i2: int)

  /** The positions of a vertex list. */
  function Positions(vs: seq<Vertex>): (ps: seq<Vec3>)
    ensures |ps| == |vs| && forall k :: 0 <= k < |vs| ==> ps[k] == vs[k].pos
  {
    seq(|vs|, k requires 0 <= k < |vs| => vs[k].pos)
  }

  /** Every vertex moved by -c; nothing but the position changes. */
  function Recentred(vs: seq<Vertex>, c: Vec3): (r: seq<Vertex>)
    ensures |r| == |vs|
  {
    seq(|vs|, k requires 0 <= k < |vs| => vs[k].(pos := Sub3(vs[k].pos, c)))
  }

  /** Recentring moves the positions exactly as Bounds.Shifted does and keeps
      every other attribute of every vertex. */
  lemma RecentredFacts(vs: seq<Vertex>, c: Vec3)
    ensures Positions(Recentred(vs, c)) == Shifted(Positions(vs), c)
    ensures forall k :: 0 <= k < |vs| ==> Recentred(vs, c)[k].(pos := vs[k].pos) == vs[k]
  {
  }

  /** SALVL_MeshPart: one material's share of a mesh. The index element type
      is a parameter because the revisions disagree: the SA1 loader and the
      emitter use a flat index list, the SA2 loader a list of faces. The
      texture reference is modelled as an index into the level's textures. */
  class MeshPart<I> {
    var vertex: seq<Vertex>
    var indices: seq<I>
    var matflags: bv32
    var texture: Option<nat>
    var diffuse: int
    var aabbCorrect: Vec3
    var size: Vec3
    /** The emitter's file name and file number, and the URLs of the mesh
        and of the texture variant the part shows. */
    var name: string
    var nameTexture: string
    var url: string
    var urlTexture: string
    var ind: Word

    /** A fresh part: empty, untextured, grey 0xB2B2B2, unnamed, number 0. */
    constructor ()
      ensures vertex == [] && indices == []
      ensures matflags == 0 && texture == None && diffuse == 0xB2B2B2
      ensures aabbCorrect == Zero3 && size == Zero3
      ensures name == [] && nameTexture == [] && url == [] && urlTexture == [] && ind == 0
    {
      name := [];
      nameTexture := [];
      url := [];
      urlTexture := [];
      ind := 0;
      vertex := [];
      indices := [];
      matflags := 0;
      texture := None;
      diffuse := 0xB2B2B2;
      aabbCorrect := Zero3;
      size := Zero3;
    }

    /** Returns the Uint16 position of the first equal vertex, appending the
        vertex when there is none. */
    method AddVertex(adder: Vertex) returns (j: int)
      modifies this`vertex
      ensures vertex == Inserted(old(vertex), adder)
      ensures j == Position(old(vertex), adder) % 0x1_0000
      ensures 0 <= j < 0x1_0000
      ensures NoDup(old(vertex)) ==> NoDup(vertex)
    {
      InsertedFacts(vertex, adder);
      var p := Lookup(vertex, adder);
      if p == |vertex| {
        vertex := vertex + [adder];
      }
      j := p % 0x1_0000;
    }

    /** Measures the box of the positions, records its size (each axis at
        least 0.2) and centre, and moves every vertex by minus the centre. */
    method AABBCorrect()
      modifies this`vertex, this`size, this`aabbCorrect
      ensures |old(vertex)| > 0 ==>
                size == ClampedSize(Positions(old(vertex)), 0.2) &&
                aabbCorrect == Midpoint(Positions(old(vertex)))
      ensures |old(vertex)| == 0 ==> size == Vec3(0.2, 0.2, 0.2) && aabbCorrect == Zero3
      ensures vertex == Recentred(old(vertex), aabbCorrect)
    {
      if |vertex| == 0 {
        size := Vec3(0.2, 0.2, 0.2);
        aabbCorrect := Zero3;
        return;
      }
      size, aabbCorrect := Measure(Positions(vertex), 0.2);
      var k := 0;
      ghost var vs0 := vertex;
      while k < |vertex|
        modifies this`vertex
        invariant |vertex| == |vs0| && k <= |vertex|
        invariant forall i :: 0 <= i < k ==> vertex[i] == vs0[i].(pos := Sub3(vs0[i].pos, aabbCorrect))
        invariant forall i :: k <= i < |vertex| ==> vertex[i] == vs0[i]
      {
        var v := vertex[k];
        vertex := vertex[k := v.(pos := Sub3(v.pos, aabbCorrect))];
        k := k + 1;
      }
      assert vertex == Recentred(vs0, aabbCorrect);
    }
  }

  /** After AABBCorrect the positions of a non-empty part are centred on
      every axis (the new minimum and maximum cancel), the extent of each
      axis is kept, and the recorded size is at least 0.2 and at least the
      extent. */
  lemma CorrectedPartCentred(vs: seq<Vertex>, axis: nat)
    requires |vs| > 0 && axis < 3
    ensures var c := Midpoint(Positions(vs));
            var ps := Positions(Recentred(vs, c));
            MinAt(ps, axis) + MaxAt(ps, axis) == 0.0 &&
            MaxAt(ps, axis) - MinAt(ps, axis) == MaxAt(Positions(vs), axis) - MinAt(Positions(vs), axis)
    ensures Coord(ClampedSize(Positions(vs), 0.2), axis) >= 0.2
    ensures Coord(ClampedSize(Positions(vs), 0.2), axis) >= MaxAt(Positions(vs), axis) - MinAt(Positions(vs), axis)
  {
    var c := Midpoint(Positions(vs));
    RecentredFacts(vs, c);
    RecentredBox(Positions(vs), axis);
    ClampedSizeBounds(Positions(vs), 0.2, axis);
  }

  /** SALVL_Texture, without the file paths. */
  datatype Texture = Texture(name: string, nameFu: string, nameFv: string, nameFuv: string,
                             url: string, urlFu: string, urlFv: string, urlFuv: string,
                             xres: int, yres: int, transparent: bool)

  /** SALVL_Mesh: parts by material id. `order` lists the material ids in the
      order their parts were created, which is the order the writers visit
      them in this model. */
  datatype Mesh<I> = Mesh(parts: map<int, MeshPart<I>>, order: seq<int>)

  const EmptyMesh: Mesh<int> := Mesh(map[], [])

  /** SALVL_MeshInstance: the mesh reference is the key of the mesh in the
      level's mesh map (None for nullptr). */
  datatype MeshInstance = MeshInstance(mesh: Option<int>, matrix: seq<real>, pos: Vec3, surfFlag: bv32)

  const DefaultMeshInstance: MeshInstance := MeshInstance(None, Rotation.Identity, Zero3, 0)

  /** SALVL: the level container the loaders fill in. Meshes are keyed by
      the model they were decoded from. */
  class Level<I> {
    var textures: seq<Texture>
    var meshes: map<int, Mesh<I>>
    var meshinstances: seq<MeshInstance>

    constructor (textures: seq<Texture>)
      ensures this.textures == textures && meshes == map[] && meshinstances == []
    {
      this.textures := textures;
      meshes := map[];
      meshinstances := [];
    }
  }
}
