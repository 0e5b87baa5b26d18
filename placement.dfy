/** Placing mesh parts: every part of every instance becomes a mesh part
    instance whose rotation is the instance's 3×3 block transposed and
    whose position is the instance position plus the part's box correction
    turned by the instance matrix. The part instance goes to the collision
    list when the instance's solid bit is set, otherwise to the visual list
    when its visible bit is set, otherwise nowhere. The standalone converter
    tests the game's bits (0x1, 0x80000000), the emitter the remapped ones
    (1 << 0, 1 << 1). */
module Placement {
  import opened Types
  import Rotation
  import Salvl

  /** Rows become columns: entry (r, c) of the result is entry (c, r) of
      `m` inside the 3×3 block; the fourth row and column stay those of the
      identity the part instance starts from. */
  function Transposed(m: seq<real>): (r: seq<real>)
    requires |m| == 16
    ensures |r| == 16
  {
    Rotation.Identity[0 := m[0]][4 := m[1]][8 := m[2]]
                     [1 := m[4]][5 := m[5]][9 := m[6]]
                     [2 := m[8]][6 := m[9]][10 := m[10]]
  }

  /** The 3×3 block applied to a column vector. */
  function Apply(m: seq<real>, v: Vec3): Vec3
    requires |m| == 16
  {
    Vec3(Mul(m[0], v.x) + Mul(m[1], v.y) + Mul(m[2], v.z),
         Mul(m[4], v.x) + Mul(m[5], v.y) + Mul(m[6], v.z),
         Mul(m[8], v.x) + Mul(m[9], v.y) + Mul(m[10], v.z))
  }

  /** The part offset: the correction as a row vector times the instance's
      3×3 block, in the order the converters add the terms. */
  function Turned(corr: Vec3, m: seq<real>): Vec3
    requires |m| == 16
  {
    Vec3(Mul(corr.z, m[8]) + Mul(corr.y, m[4]) + Mul(corr.x, m[0]),
         Mul(corr.z, m[9]) + Mul(corr.y, m[5]) + Mul(corr.x, m[1]),
         Mul(corr.z, m[10]) + Mul(corr.y, m[6]) + Mul(corr.x, m[2]))
  }

  /** Transposing twice gives back the 3×3 block of a matrix whose fourth
      row and column are the identity's; and the offset the converters add
      is the transposed block (the part's rotation) applied to the correction. */
  lemma TransposedFacts(m: seq<real>, corr: Vec3)
    requires |m| == 16
    ensures Transposed(Transposed(m))[..3] == m[..3]
    ensures Transposed(Transposed(m))[4..7] == m[4..7]
    ensures Transposed(Transposed(m))[8..11] == m[8..11]
    ensures Transposed(Rotation.Identity) == Rotation.Identity
    ensures Turned(corr, m) == Apply(Transposed(m), corr)
  {
  }

  lemma MulSub(a: real, b: real, c: real)
    ensures Mul(a - b, c) == Mul(a, c) - Mul(b, c)
  {
  }

  /** Recentring does not move the geometry: a vertex stored relative to
      the corrected centre `corr`, turned by the instance and added to the
      part position, lands exactly where the uncorrected vertex lands under
      the instance. */
  lemma PlacementKeepsWorld(pos: Vec3, m: seq<real>, corr: Vec3, v: Vec3)
    requires |m| == 16
    ensures Add3(Add3(pos, Turned(corr, m)), Turned(Sub3(v, corr), m)) == Add3(pos, Turned(v, m))
  {
    var d := Sub3(v, corr);
    MulSub(v.x, corr.x, m[0]); MulSub(v.y, corr.y, m[4]); MulSub(v.z, corr.z, m[8]);
    MulSub(v.x, corr.x, m[1]); MulSub(v.y, corr.y, m[5]); MulSub(v.z, corr.z, m[9]);
    MulSub(v.x, corr.x, m[2]); MulSub(v.y, corr.y, m[6]); MulSub(v.z, corr.z, m[10]);
  }

  /** The lists a part instance may go to. */
  datatype Route = Collision | Visual | Dropped

  /** Collision when the solid bit is set, else visual when the visible
      bit is set, else neither. */
  function RouteOf(flag: bv32, solid: bv32, visible: bv32): Route
  {
    if flag & solid != 0 then Collision
    else if flag & visible != 0 then Visual
    else Dropped
  }

  /** The Transparency property: 0 when the visible bit is set, else 1. */
  function Transparency(flag: bv32, visible: bv32): real
  {
    if flag & visible != 0 then 0.0 else 1.0
  }

  /** What the placement loop needs of a part: its material id (which
      names it within its mesh) and its box correction. */
  datatype PartRef = PartRef(material: int, corr: Vec3)

  /** SALVL_MeshPartInstance: the part is named by its mesh key and
      material id; the instance's surface flag and the transparency derived
      from it travel with it. */
  datatype PartInstance = PartInstance(mesh: int, material: int, matrix: seq<real>, pos: Vec3,
                                       surfFlag: bv32, transparency: real)

  /** The part instance of one part of one instance. */
  function MakePart(inst: Salvl.MeshInstance, key: int, p: PartRef, visible: bv32): PartInstance
    requires |inst.matrix| == 16
  {
    PartInstance(key, p.material, Transposed(inst.matrix), Add3(inst.pos, Turned(p.corr, inst.matrix)),
                 inst.surfFlag, Transparency(inst.surfFlag, visible))
  }

  /** The part instances of the parts 0 .. k-1 of an instance. */
  function PartsOf(inst: Salvl.MeshInstance, key: int, ps: seq<PartRef>, visible: bv32, k: nat): (r: seq<PartInstance>)
    requires |inst.matrix| == 16 && k <= |ps|
    ensures |r| == k
  {
    if k == 0 then [] else PartsOf(inst, key, ps, visible, k - 1) + [MakePart(inst, key, ps[k - 1], visible)]
  }

  /** Instances are usable: every matrix has sixteen entries and every
      non-null mesh is known. */
  predicate InstancesOk(insts: seq<Salvl.MeshInstance>, meshes: map<int, seq<PartRef>>)
  {
    forall i :: 0 <= i < |insts| ==>
      |insts[i].matrix| == 16 && (insts[i].mesh.Some? ==> insts[i].mesh.value in meshes)
  }

  /** The part instances instance `inst` routes to `r`: all its parts when
      its flag routes there and it has a mesh, none otherwise. */
  function Contribution(inst: Salvl.MeshInstance, meshes: map<int, seq<PartRef>>, solid: bv32, visible: bv32, r: Route): seq<PartInstance>
    requires |inst.matrix| == 16 && (inst.mesh.Some? ==> inst.mesh.value in meshes)
  {
    if inst.mesh.Some? && RouteOf(inst.surfFlag, solid, visible) == r then
      var ps := meshes[inst.mesh.value];
      PartsOf(inst, inst.mesh.value, ps, visible, |ps|)
    else []
  }

  /** The list `r` after the instances 0 .. i-1. */
  function Routed(insts: seq<Salvl.MeshInstance>, meshes: map<int, seq<PartRef>>, solid: bv32, visible: bv32, r: Route, i: nat): seq<PartInstance>
    requires InstancesOk(insts, meshes) && i <= |insts|
  {
    if i == 0 then []
    else Routed(insts, meshes, solid, visible, r, i - 1) + Contribution(insts[i - 1], meshes, solid, visible, r)
  }

  /** What an instance contributes to list `r` carries its flag, the
      transparency derived from it, and that flag routes to `r`. */
  lemma ContributionFlags(inst: Salvl.MeshInstance, meshes: map<int, seq<PartRef>>, solid: bv32, visible: bv32, r: Route)
    requires |inst.matrix| == 16 && (inst.mesh.Some? ==> inst.mesh.value in meshes)
    ensures forall p :: p in Contribution(inst, meshes, solid, visible, r) ==>
              p.surfFlag == inst.surfFlag && p.transparency == Transparency(inst.surfFlag, visible) &&
              RouteOf(inst.surfFlag, solid, visible) == r
  {
    if inst.mesh.Some? {
      var ps := meshes[inst.mesh.value];
      PartsOfFlags(inst, inst.mesh.value, ps, visible, |ps|);
    }
  }

  /** Every entry of list `r` carries a flag that routes to `r` and the
      transparency derived from that flag. */
  lemma {:induction false} RoutedFlags(insts: seq<Salvl.MeshInstance>, meshes: map<int, seq<PartRef>>, solid: bv32, visible: bv32, r: Route, i: nat)
    requires InstancesOk(insts, meshes) && i <= |insts|
    ensures forall p :: p in Routed(insts, meshes, solid, visible, r, i) ==>
              RouteOf(p.surfFlag, solid, visible) == r && p.transparency == Transparency(p.surfFlag, visible)
  {
    if i > 0 {
      RoutedFlags(insts, meshes, solid, visible, r, i - 1);
      ContributionFlags(insts[i - 1], meshes, solid, visible, r);
    }
  }

  /** An entry of the collision list has the solid bit set; an entry of
      the visual list has the solid bit clear, the visible bit set and
      transparency 0, so no part instance is in both lists. */
  lemma ListFlags(insts: seq<Salvl.MeshInstance>, meshes: map<int, seq<PartRef>>, solid: bv32, visible: bv32)
    requires InstancesOk(insts, meshes)
    ensures forall p :: p in Routed(insts, meshes, solid, visible, Collision, |insts|) ==> p.surfFlag & solid != 0
    ensures forall p :: p in Routed(insts, meshes, solid, visible, Visual, |insts|) ==>
              p.surfFlag & solid == 0 && p.surfFlag & visible != 0 && p.transparency == 0.0
  {
    RoutedFlags(insts, meshes, solid, visible, Collision, |insts|);
    RoutedFlags(insts, meshes, solid, visible, Visual, |insts|);
  }

  /** Every entry of either list is the part instance of some part of
      some instance with a mesh. */
  lemma {:induction false} RoutedSound(insts: seq<Salvl.MeshInstance>, meshes: map<int, seq<PartRef>>, solid: bv32, visible: bv32, r: Route, i: nat)
    requires InstancesOk(insts, meshes) && i <= |insts|
    ensures forall p :: p in Routed(insts, meshes, solid, visible, r, i) ==>
              exists j, k :: 0 <= j < i && insts[j].mesh.Some? && insts[j].mesh.value in meshes &&
                             0 <= k < |meshes[insts[j].mesh.value]| &&
                             p == MakePart(insts[j], insts[j].mesh.value, meshes[insts[j].mesh.value][k], visible)
  {
    if i > 0 {
      RoutedSound(insts, meshes, solid, visible, r, i - 1);
      var inst := insts[i - 1];
      if inst.mesh.Some? {
        var ps := meshes[inst.mesh.value];
        PartsOfAt(inst, inst.mesh.value, ps, visible, |ps|);
      }
    }
  }

  /** Nothing is lost: every part of every instance with a mesh is in the
      list its instance's flag selects. */
  lemma {:induction false} RoutedComplete(insts: seq<Salvl.MeshInstance>, meshes: map<int, seq<PartRef>>, solid: bv32, visible: bv32, i: nat)
    requires InstancesOk(insts, meshes) && i <= |insts|
    ensures forall j, k :: 0 <= j < i && insts[j].mesh.Some? && 0 <= k < |meshes[insts[j].mesh.value]| ==>
              MakePart(insts[j], insts[j].mesh.value, meshes[insts[j].mesh.value][k], visible)
                in Routed(insts, meshes, solid, visible, RouteOf(insts[j].surfFlag, solid, visible), i)
  {
    if i > 0 {
      RoutedComplete(insts, meshes, solid, visible, i - 1);
      var inst := insts[i - 1];
      forall j, k | 0 <= j < i && insts[j].mesh.Some? && 0 <= k < |meshes[insts[j].mesh.value]|
        ensures MakePart(insts[j], insts[j].mesh.value, meshes[insts[j].mesh.value][k], visible)
                  in Routed(insts, meshes, solid, visible, RouteOf(insts[j].surfFlag, solid, visible), i)
      {
        var r := RouteOf(insts[j].surfFlag, solid, visible);
        if j == i - 1 {
          var ps := meshes[inst.mesh.value];
          PartsOfAt(inst, inst.mesh.value, ps, visible, |ps|);
          assert Contribution(inst, meshes, solid, visible, r)[k] == MakePart(inst, inst.mesh.value, ps[k], visible);
        }
      }
    }
  }

  /** Entry n of an instance's part instances is that of its part n. */
  lemma {:induction false} PartsOfAt(inst: Salvl.MeshInstance, key: int, ps: seq<PartRef>, visible: bv32, k: nat)
    requires |inst.matrix| == 16 && k <= |ps|
    ensures forall n :: 0 <= n < k ==> PartsOf(inst, key, ps, visible, k)[n] == MakePart(inst, key, ps[n], visible)
  {
    if k > 0 {
      PartsOfAt(inst, key, ps, visible, k - 1);
    }
  }

  /** Every part instance of an instance carries the instance's flag and
      the transparency it gives. */
  lemma {:induction false} PartsOfFlags(inst: Salvl.MeshInstance, key: int, ps: seq<PartRef>, visible: bv32, k: nat)
    requires |inst.matrix| == 16 && k <= |ps|
    ensures forall p :: p in PartsOf(inst, key, ps, visible, k) ==>
              p.surfFlag == inst.surfFlag && p.transparency == Transparency(inst.surfFlag, visible)
  {
    if k > 0 {
      PartsOfFlags(inst, key, ps, visible, k - 1);
    }
  }

  /** The placement loop: for each instance with a mesh and each of its
      parts in order, the part instance is built and appended to the list
      the instance's flag selects. */
  method Place(insts: seq<Salvl.MeshInstance>, meshes: map<int, seq<PartRef>>, solid: bv32, visible: bv32)
      returns (collision: seq<PartInstance>, visual: seq<PartInstance>)
    requires InstancesOk(insts, meshes)
    ensures collision == Routed(insts, meshes, solid, visible, Collision, |insts|)
    ensures visual == Routed(insts, meshes, solid, visible, Visual, |insts|)
  {
    collision, visual := [], [];
    var i := 0;
    while i < |insts|
      invariant i <= |insts|
      invariant collision == Routed(insts, meshes, solid, visible, Collision, i)
      invariant visual == Routed(insts, meshes, solid, visible, Visual, i)
    {
      var inst := insts[i];
      if inst.mesh.Some? {
        collision, visual := PlaceInstance(inst, meshes, solid, visible, collision, visual);
      }
      i := i + 1;
    }
  }

  /** The inner loop over the parts of one instance. */
  method PlaceInstance(inst: Salvl.MeshInstance, meshes: map<int, seq<PartRef>>, solid: bv32, visible: bv32,
                       collision: seq<PartInstance>, visual: seq<PartInstance>)
      returns (collision': seq<PartInstance>, visual': seq<PartInstance>)
    requires |inst.matrix| == 16 && inst.mesh.Some? && inst.mesh.value in meshes
    ensures collision' == collision + Contribution(inst, meshes, solid, visible, Collision)
    ensures visual' == visual + Contribution(inst, meshes, solid, visible, Visual)
  {
    var key := inst.mesh.value;
    var ps := meshes[key];
    var route := RouteOf(inst.surfFlag, solid, visible);
    collision', visual' := collision, visual;
    var k := 0;
    while k < |ps|
      invariant k <= |ps|
      invariant collision' == collision + (if route == Collision then PartsOf(inst, key, ps, visible, k) else [])
      invariant visual' == visual + (if route == Visual then PartsOf(inst, key, ps, visible, k) else [])
    {
      var pi := BuildPart(inst, key, ps[k], visible);
      if route == Collision {
        collision' := collision' + [pi];
      } else if route == Visual {
        visual' := visual' + [pi];
      }
      k := k + 1;
    }
  }

  /** One part instance: the transposed block, the position sum in the
      converters' term order and the transparency of the instance's flag. */
  method BuildPart(inst: Salvl.MeshInstance, key: int, p: PartRef, visible: bv32) returns (pi: PartInstance)
    requires |inst.matrix| == 16
    ensures pi == MakePart(inst, key, p, visible)
  {
    var m := inst.matrix;
    var c := p.corr;
    var x := inst.pos.x + Mul(c.z, m[8]) + Mul(c.y, m[4]) + Mul(c.x, m[0]);
    var y := inst.pos.y + Mul(c.z, m[9]) + Mul(c.y, m[5]) + Mul(c.x, m[1]);
    var z := inst.pos.z + Mul(c.z, m[10]) + Mul(c.y, m[6]) + Mul(c.x, m[2]);
    assert Vec3(x, y, z) == Add3(inst.pos, Turned(c, m));
    var transparency := if inst.surfFlag & visible != 0 then 0.0 else 1.0;
    pi := PartInstance(key, p.material, Transposed(m), Vec3(x, y, z), inst.surfFlag, transparency);
  }
}
