/** The bounding-box arithmetic of AABBCorrect, shared by the two revisions
    (the header's MeshPart clamps each extent to 0.2, the standalone one to
    0.1): per-axis minimum and maximum of the vertex positions, the midpoint
    used as correction offset, the clamped size, and the shift of all
    positions by the offset. */
module Bounds {
  import opened Types

  /** Smallest coordinate on `axis`, folded left to right like the scan loop. */
  function MinAt(ps: seq<Vec3>, axis: nat): real
    requires |ps| > 0 && axis < 3
  {
    if |ps| == 1 then Coord(ps[0], axis)
    else
      var m := MinAt(ps[..|ps| - 1], axis);
      var last := Coord(ps[|ps| - 1], axis);
      if last < m then last else m
  }

  /** Largest coordinate on `axis`, folded left to right like the scan loop. */
  function MaxAt(ps: seq<Vec3>, axis: nat): real
    requires |ps| > 0 && axis < 3
  {
    if |ps| == 1 then Coord(ps[0], axis)
    else
      var m := MaxAt(ps[..|ps| - 1], axis);
      var last := Coord(ps[|ps| - 1], axis);
      if last > m then last else m
  }

  /** MinAt and MaxAt are the least and greatest coordinate, and both are attained. */
  lemma {:induction false} ExtremesBound(ps: seq<Vec3>, axis: nat)
    requires |ps| > 0 && axis < 3
    ensures forall k :: 0 <= k < |ps| ==> MinAt(ps, axis) <= Coord(ps[k], axis) <= MaxAt(ps, axis)
    ensures exists k :: 0 <= k < |ps| && Coord(ps[k], axis) == MinAt(ps, axis)
    ensures exists k :: 0 <= k < |ps| && Coord(ps[k], axis) == MaxAt(ps, axis)
  {
    var n := |ps|;
    if n > 1 {
      var init := ps[..n - 1];
      ExtremesBound(init, axis);
      assert forall k :: 0 <= k < n - 1 ==> init[k] == ps[k];
      var i :| 0 <= i < n - 1 && Coord(init[i], axis) == MinAt(init, axis);
      var j :| 0 <= j < n - 1 && Coord(init[j], axis) == MaxAt(init, axis);
      if Coord(ps[n - 1], axis) >= MinAt(init, axis) {
        assert Coord(ps[i], axis) == MinAt(ps, axis);
      }
      if Coord(ps[n - 1], axis) <= MaxAt(init, axis) {
        assert Coord(ps[j], axis) == MaxAt(ps, axis);
      }
    }
  }

  function BoxMin(ps: seq<Vec3>): Vec3
    requires |ps| > 0
  {
    Vec3(MinAt(ps, 0), MinAt(ps, 1), MinAt(ps, 2))
  }

  function BoxMax(ps: seq<Vec3>): Vec3
    requires |ps| > 0
  {
    Vec3(MaxAt(ps, 0), MaxAt(ps, 1), MaxAt(ps, 2))
  }

  /** The correction offset: the centre of the box. */
  function Midpoint(ps: seq<Vec3>): Vec3
    requires |ps| > 0
  {
    Scale3(Add3(BoxMin(ps), BoxMax(ps)), 0.5)
  }

  function Clamp(e: real, floor: real): real
  {
    if e < floor then floor else e
  }

  /** The recorded size: the box extent with each axis raised to `floor`. */
  function ClampedSize(ps: seq<Vec3>, floor: real): Vec3
    requires |ps| > 0
  {
    var d := Sub3(BoxMax(ps), BoxMin(ps));
    Vec3(Clamp(d.x, floor), Clamp(d.y, floor), Clamp(d.z, floor))
  }

  /** Every position moved by -c. */
  function Shifted(ps: seq<Vec3>, c: Vec3): (r: seq<Vec3>)
    ensures |r| == |ps|
    ensures forall k :: 0 <= k < |ps| ==> r[k] == Sub3(ps[k], c)
  {
    seq(|ps|, k requires 0 <= k < |ps| => Sub3(ps[k], c))
  }

  /** The min/max loop of AABBCorrect over a non-empty position list. */
  method Scan(ps: seq<Vec3>) returns (lo: Vec3, hi: Vec3)
    requires |ps| > 0
    ensures lo == BoxMin(ps) && hi == BoxMax(ps)
  {
    lo, hi := ps[0], ps[0];
    var k := 1;
    while k < |ps|
      invariant 1 <= k <= |ps|
      invariant lo == BoxMin(ps[..k]) && hi == BoxMax(ps[..k])
    {
      var p := ps[k];
      assert ps[..k + 1][..k] == ps[..k];
      assert ps[..k + 1][k] == p;
      if p.x < lo.x { lo := lo.(x := p.x); }
      if p.x > hi.x { hi := hi.(x := p.x); }
      if p.y < lo.y { lo := lo.(y := p.y); }
      if p.y > hi.y { hi := hi.(y := p.y); }
      if p.z < lo.z { lo := lo.(z := p.z); }
      if p.z > hi.z { hi := hi.(z := p.z); }
      k := k + 1;
    }
    assert ps[..k] == ps;
  }

  /** The first half of AABBCorrect: the min/max scan, then the size with
      each axis raised to `floor`, and the centre of the box. */
  method Measure(ps: seq<Vec3>, floor: real) returns (size: Vec3, centre: Vec3)
    requires |ps| > 0
    ensures size == ClampedSize(ps, floor)
    ensures centre == Midpoint(ps)
  {
    var lo, hi := Scan(ps);
    size := Sub3(hi, lo);
    if size.x < floor { size := size.(x := floor); }
    if size.y < floor { size := size.(y := floor); }
    if size.z < floor { size := size.(z := floor); }
    centre := Vec3((lo.x + hi.x) * 0.5, (lo.y + hi.y) * 0.5, (lo.z + hi.z) * 0.5);
  }

  /** Shifting every position shifts the minimum and the maximum by the same amount. */
  lemma {:induction false} ShiftedExtremes(ps: seq<Vec3>, c: Vec3, axis: nat)
    requires |ps| > 0 && axis < 3
    ensures MinAt(Shifted(ps, c), axis) == MinAt(ps, axis) - Coord(c, axis)
    ensures MaxAt(Shifted(ps, c), axis) == MaxAt(ps, axis) - Coord(c, axis)
  {
    var n := |ps|;
    if n > 1 {
      assert Shifted(ps, c)[..n - 1] == Shifted(ps[..n - 1], c);
      ShiftedExtremes(ps[..n - 1], c, axis);
    }
  }

  /** After subtracting the midpoint, every axis of the box is centred on 0:
      its new minimum plus its new maximum is zero, and the extent is kept. */
  lemma RecentredBox(ps: seq<Vec3>, axis: nat)
    requires |ps| > 0 && axis < 3
    ensures MinAt(Shifted(ps, Midpoint(ps)), axis) + MaxAt(Shifted(ps, Midpoint(ps)), axis) == 0.0
    ensures MaxAt(Shifted(ps, Midpoint(ps)), axis) - MinAt(Shifted(ps, Midpoint(ps)), axis)
            == MaxAt(ps, axis) - MinAt(ps, axis)
  {
    ShiftedExtremes(ps, Midpoint(ps), axis);
  }

  /** The clamped size is never below the floor, and equals the extent when
      the extent already reaches it. */
  lemma ClampedSizeBounds(ps: seq<Vec3>, floor: real, axis: nat)
    requires |ps| > 0 && axis < 3
    ensures Coord(ClampedSize(ps, floor), axis) >= floor
    ensures Coord(ClampedSize(ps, floor), axis) >= MaxAt(ps, axis) - MinAt(ps, axis)
    ensures MaxAt(ps, axis) - MinAt(ps, axis) >= floor ==>
              Coord(ClampedSize(ps, floor), axis) == MaxAt(ps, axis) - MinAt(ps, axis)
  {
  }

  /** Every shifted position lies inside the recentred box of half-extent
      (max - min) / 2 on each axis. */
  lemma ShiftedInsideHalfExtent(ps: seq<Vec3>, axis: nat, k: nat)
    requires |ps| > 0 && axis < 3 && k < |ps|
    ensures var h := (MaxAt(ps, axis) - MinAt(ps, axis)) * 0.5;
            -h <= Coord(Shifted(ps, Midpoint(ps))[k], axis) <= h
  {
    ExtremesBound(ps, axis);
  }
}
