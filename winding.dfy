/** The winding-fix pass that opens SALVL_MeshPart::AutoNormals: faces that
    run a shared edge in the same direction are flipped, one connected
    neighbourhood at a time, so that neighbours agree on their winding. */
module Winding {
  import opened Salvl

  /** A directed edge, as the pair of Sint16 vertex indices the edge map is keyed by. */
  type EdgeKey = (int, int)

  /** Edge k of a face: (i0, i1), (i1, i2) or (i2, i0). */
  function Edge(f: Face, k: nat): EdgeKey
    requires k < 3
  {
    if k == 0 then (f.i0, f.i1) else if k == 1 then (f.i1, f.i2) else (f.i2, f.i0)
  }

  /** The same edge run the other way. */
  function Rev(e: EdgeKey): EdgeKey
  {
    (e.1, e.0)
  }

  predicate HasEdge(f: Face, e: EdgeKey)
  {
    Edge(f, 0) == e || Edge(f, 1) == e || Edge(f, 2) == e
  }

  /** The swap applied to a neighbour found through edge k of the face being
      fixed: entries 0 and 1, 1 and 2, or 2 and 0 exchanged. */
  function Flip(f: Face, k: nat): Face
    requires k < 3
  {
    if k == 0 then Face(f.i1, f.i0, f.i2)
    else if k == 1 then Face(f.i0, f.i2, f.i1)
    else Face(f.i2, f.i1, f.i0)
  }

  /** g is f with one of the three swaps applied. */
  predicate Flipped(f: Face, g: Face)
  {
    g == Flip(f, 0) || g == Flip(f, 1) || g == Flip(f, 2)
  }

  /** The vertex indices of a face, with repeats. */
  function Corners(f: Face): multiset<int>
  {
    multiset{f.i0, f.i1, f.i2}
  }

  /** A flipped face keeps its vertices and runs every one of its edges the
      other way, so a neighbour that ran a shared edge the same way as the
      fixed face now runs it opposite. */
  lemma FlippedReverses(f: Face, g: Face, e: EdgeKey)
    requires Flipped(f, g) && HasEdge(f, e)
    ensures Corners(g) == Corners(f) && HasEdge(g, Rev(e))
  {
    var j := if Edge(f, 0) == e then 0 else if Edge(f, 1) == e then 1 else 2;
    var k := if g == Flip(f, 0) then 0 else if g == Flip(f, 1) then 1 else 2;
    FlipReverses(f, k, j);
    FlipCorners(f, k);
  }

  /** Swap k keeps the vertices of the face. */
  lemma FlipCorners(f: Face, k: nat)
    requires k < 3
    ensures Corners(Flip(f, k)) == Corners(f)
  {
    if k == 0 {
      assert multiset{f.i1, f.i0, f.i2} == multiset{f.i0, f.i1, f.i2};
    } else if k == 1 {
      assert multiset{f.i0, f.i2, f.i1} == multiset{f.i0, f.i1, f.i2};
    } else {
      assert multiset{f.i2, f.i1, f.i0} == multiset{f.i0, f.i1, f.i2};
    }
  }

  /** Swap k reverses edge j of the face: the reversal is one of the
      edges of the swapped face. */
  lemma FlipReverses(f: Face, k: nat, j: nat)
    requires k < 3 && j < 3
    ensures HasEdge(Flip(f, k), Rev(Edge(f, j)))
  {
  }

  // ---------------------------------------------------------------------
  // The edge map

  /** edges[e], where reading an absent key gives the empty list (operator[]
      inserts one, which changes nothing else). */
  function Lookup(edges: map<EdgeKey, seq<int>>, e: EdgeKey): seq<int>
  {
    if e in edges then edges[e] else []
  }

  /** What face o contributes to the list of edge e: o once per edge of the
      face equal to e, in edge order. */
  function Hits(f: Face, e: EdgeKey, o: int): seq<int>
  {
    (if Edge(f, 0) == e then [o] else []) +
    (if Edge(f, 1) == e then [o] else []) +
    (if Edge(f, 2) == e then [o] else [])
  }

  lemma HitsMembers(f: Face, e: EdgeKey, o: int)
    ensures forall x :: x in Hits(f, e, o) <==> x == o && HasEdge(f, e)
  {
  }

  /** The list the edge map holds for e after the first n faces. */
  function EdgeList(faces: seq<Face>, e: EdgeKey, n: nat): seq<int>
    requires n <= |faces|
  {
    if n == 0 then [] else EdgeList(faces, e, n - 1) + Hits(faces[n - 1], e, n - 1)
  }

  /** A face is listed under e exactly when it has e as one of its edges. */
  lemma {:induction false} EdgeListMembers(faces: seq<Face>, e: EdgeKey, n: nat)
    requires n <= |faces|
    ensures forall o :: o in EdgeList(faces, e, n) <==> 0 <= o < n && HasEdge(faces[o], e)
  {
    if n > 0 {
      EdgeListMembers(faces, e, n - 1);
      HitsMembers(faces[n - 1], e, n - 1);
    }
  }

  /** Every face listed under an edge has that edge. */
  ghost predicate Indexed(edges: map<EdgeKey, seq<int>>, faces: seq<Face>)
  {
    forall e, j :: 0 <= j < |Lookup(edges, e)| ==>
      0 <= Lookup(edges, e)[j] < |faces| && HasEdge(faces[Lookup(edges, e)[j]], e)
  }

  lemma Listed(edges: map<EdgeKey, seq<int>>, faces: seq<Face>, e: EdgeKey, o: int)
    requires Indexed(edges, faces) && o in Lookup(edges, e)
    ensures 0 <= o < |faces| && HasEdge(faces[o], e)
  {
    var j :| 0 <= j < |Lookup(edges, e)| && Lookup(edges, e)[j] == o;
  }

  /** What one push_back on the list of e adds to the list of e'. */
  function Hit(e: EdgeKey, e': EdgeKey, o: int): seq<int>
  {
    if e' == e then [o] else []
  }

  /** push_back of face o on the list of e. */
  method Push(edges: map<EdgeKey, seq<int>>, e: EdgeKey, o: int) returns (r: map<EdgeKey, seq<int>>)
    ensures forall e' :: Lookup(r, e') == Lookup(edges, e') + Hit(e, e', o)
  {
    r := edges[e := Lookup(edges, e) + [o]];
  }

  lemma Assoc(l: seq<int>, a: seq<int>, b: seq<int>, c: seq<int>)
    ensures l + a + b + c == l + (a + b + c)
  {
  }

  /** One face pushed on the lists of its three edges, in edge order. */
  method AddFace(edges: map<EdgeKey, seq<int>>, f: Face, o: int) returns (r: map<EdgeKey, seq<int>>)
    ensures forall e :: Lookup(r, e) == Lookup(edges, e) + Hits(f, e, o)
  {
    var r0 := Push(edges, Edge(f, 0), o);
    var r1 := Push(r0, Edge(f, 1), o);
    r := Push(r1, Edge(f, 2), o);
    forall e
      ensures Lookup(r, e) == Lookup(edges, e) + Hits(f, e, o)
    {
      Assoc(Lookup(edges, e), Hit(Edge(f, 0), e, o), Hit(Edge(f, 1), e, o), Hit(Edge(f, 2), e, o));
    }
  }

  /** The first loop of AutoNormals: every face pushed on the lists of its
      three edges. */
  method BuildEdges(faces: seq<Face>) returns (edges: map<EdgeKey, seq<int>>)
    ensures forall e :: Lookup(edges, e) == EdgeList(faces, e, |faces|)
  {
    edges := map[];
    for n := 0 to |faces|
      invariant forall e :: Lookup(edges, e) == EdgeList(faces, e, n)
    {
      edges := AddFace(edges, faces[n], n);
    }
  }

  /** The edge map indexes the faces: the membership half of BuildEdges. */
  lemma BuiltIndexed(edges: map<EdgeKey, seq<int>>, faces: seq<Face>)
    requires forall e :: Lookup(edges, e) == EdgeList(faces, e, |faces|)
    ensures Indexed(edges, faces)
    ensures forall o, k :: 0 <= o < |faces| && 0 <= k < 3 ==> o in Lookup(edges, Edge(faces[o], k))
  {
    forall e
      ensures forall o :: o in Lookup(edges, e) <==> 0 <= o < |faces| && HasEdge(faces[o], e)
    {
      EdgeListMembers(faces, e, |faces|);
    }
    forall e, j | 0 <= j < |Lookup(edges, e)|
      ensures 0 <= Lookup(edges, e)[j] < |faces| && HasEdge(faces[Lookup(edges, e)[j]], e)
    {
      assert Lookup(edges, e)[j] in Lookup(edges, e);
    }
  }

  // ---------------------------------------------------------------------
  // The recursive fix

  /** The face indices 0 .. n-1. */
  ghost function AllFaces(n: nat): set<int>
  {
    if n == 0 then {} else AllFaces(n - 1) + {n - 1}
  }

  lemma {:induction false} AllFacesMembers(n: nat)
    ensures forall o :: o in AllFaces(n) <==> 0 <= o < n
  {
    if n > 0 {
      AllFacesMembers(n - 1);
    }
  }

  /** Faces not yet fixed still have their original winding. */
  ghost predicate Partial(faces: seq<Face>, orig: seq<Face>, fixed: set<int>)
  {
    |faces| == |orig| &&
    (forall o :: o in fixed ==> 0 <= o < |orig|) &&
    (forall o :: 0 <= o < |orig| && o !in fixed ==> faces[o] == orig[o])
  }

  /** From (faces0, fixed0) to (faces, fixed): the fixed set only grows,
      a face fixed before or still unfixed is untouched, and a face fixed
      in between has been flipped exactly once. */
  ghost predicate Progress(orig: seq<Face>, faces0: seq<Face>, fixed0: set<int>, faces: seq<Face>, fixed: set<int>)
  {
    fixed0 <= fixed && |faces0| == |orig| && Partial(faces, orig, fixed) &&
    (forall o :: 0 <= o < |orig| && (o in fixed0 || o !in fixed) ==> faces[o] == faces0[o]) &&
    (forall o :: 0 <= o < |orig| && o in fixed && o !in fixed0 ==> Flipped(faces0[o], faces[o]))
  }

  lemma ProgressTrans(orig: seq<Face>, a: seq<Face>, f0: set<int>, b: seq<Face>, f1: set<int>, c: seq<Face>, f2: set<int>)
    requires Progress(orig, a, f0, b, f1) && Progress(orig, b, f1, c, f2)
    ensures Progress(orig, a, f0, c, f2)
  {
    forall o | 0 <= o < |orig| && o in f2 && o !in f0
      ensures Flipped(a[o], c[o])
    {
      if o in f1 {
        assert c[o] == b[o];
      } else {
        assert b[o] == a[o];
      }
    }
  }

  /** The swap that precedes a recursive call: face o, still unfixed, is
      flipped and counts as fixed from here on. */
  lemma SwapProgress(orig: seq<Face>, faces: seq<Face>, fixed: set<int>, o: int, k: nat)
    requires Partial(faces, orig, fixed) && 0 <= o < |orig| && o !in fixed && k < 3
    ensures Progress(orig, faces, fixed, faces[o := Flip(faces[o], k)], fixed + {o})
  {
  }

  /** fix(i): mark face i fixed, then flip and fix every unfixed face that
      runs one of i's edges the same way (swapping entries 0/1, 1/2 or 2/0
      by the edge it was found through), then the three loops over e0, e1,
      e2, which visit the same lists again and find them all fixed.
      Afterwards every face listed under an edge of i is fixed, and each
      of them that was unfixed before now runs that edge the other way. */
  method Fix(part: MeshPart<Face>, ghost orig: seq<Face>, edges: map<EdgeKey, seq<int>>, fixed: set<int>, i: int)
      returns (fixed': set<int>)
    requires Indexed(edges, orig)
    requires 0 <= i < |orig| && i !in fixed
    requires Partial(part.indices, orig, fixed + {i})
    modifies part`indices
    ensures Progress(orig, old(part.indices), fixed + {i}, part.indices, fixed')
    ensures forall k, o :: 0 <= k < 3 && o in Lookup(edges, Edge(old(part.indices)[i], k)) ==> o in fixed'
    ensures forall k, o ::
              0 <= k < 3 && 0 <= o < |orig| && o in Lookup(edges, Edge(old(part.indices)[i], k)) && o !in fixed && o != i
              ==> HasEdge(part.indices[o], Rev(Edge(old(part.indices)[i], k)))
    decreases AllFaces(|orig|) - fixed, 0
  {
    AllFacesMembers(|orig|);
    ghost var faces0 := part.indices;
    var f := part.indices[i];
    var e0, e1, e2 := Edge(f, 0), Edge(f, 1), Edge(f, 2);
    var oe0, oe1, oe2 := Edge(f, 0), Edge(f, 1), Edge(f, 2);
    fixed' := fixed + {i};
    fixed' := FlipList(part, orig, edges, fixed', oe0, 0);
    ghost var faces1, fixed1 := part.indices, fixed';
    fixed' := FlipList(part, orig, edges, fixed', oe1, 1);
    ProgressTrans(orig, faces0, fixed + {i}, faces1, fixed1, part.indices, fixed');
    ghost var faces2, fixed2 := part.indices, fixed';
    fixed' := FlipList(part, orig, edges, fixed', oe2, 2);
    ProgressTrans(orig, faces0, fixed + {i}, faces2, fixed2, part.indices, fixed');
    fixed' := VisitList(part, orig, edges, fixed', e0);
    fixed' := VisitList(part, orig, edges, fixed', e1);
    fixed' := VisitList(part, orig, edges, fixed', e2);
    Reversed(orig, edges, faces0, fixed, part.indices, fixed', i);
  }

  /** The neighbour half of Fix's contract, from what the loops leave. */
  lemma Reversed(orig: seq<Face>, edges: map<EdgeKey, seq<int>>, faces0: seq<Face>, fixed: set<int>,
                 faces: seq<Face>, fixed': set<int>, i: int)
    requires Indexed(edges, orig) && 0 <= i < |orig|
    requires Partial(faces0, orig, fixed + {i})
    requires Progress(orig, faces0, fixed + {i}, faces, fixed')
    requires forall k, o :: 0 <= k < 3 && o in Lookup(edges, Edge(faces0[i], k)) ==> o in fixed'
    ensures forall k, o ::
              0 <= k < 3 && 0 <= o < |orig| && o in Lookup(edges, Edge(faces0[i], k)) && o !in fixed && o != i
              ==> HasEdge(faces[o], Rev(Edge(faces0[i], k)))
  {
    forall k, o | 0 <= k < 3 && 0 <= o < |orig| && o in Lookup(edges, Edge(faces0[i], k)) && o !in fixed && o != i
      ensures HasEdge(faces[o], Rev(Edge(faces0[i], k)))
    {
      var e := Edge(faces0[i], k);
      assert faces0[o] == orig[o] && HasEdge(orig[o], e);
      assert o in fixed' && o !in fixed + {i};
      FlippedReverses(faces0[o], faces[o], e);
    }
  }

  /** One turn of a swapping loop on an unfixed face o: the swap, then fix(o). */
  method FlipStep(part: MeshPart<Face>, ghost orig: seq<Face>, edges: map<EdgeKey, seq<int>>, fixed: set<int>, o: int, k: nat)
      returns (fixed': set<int>)
    requires Indexed(edges, orig) && k < 3
    requires 0 <= o < |orig| && o !in fixed
    requires Partial(part.indices, orig, fixed)
    modifies part`indices
    ensures Progress(orig, old(part.indices), fixed, part.indices, fixed') && o in fixed'
    decreases AllFaces(|orig|) - fixed, 1
  {
    ghost var faces0 := part.indices;
    SwapProgress(orig, faces0, fixed, o, k);
    part.indices := part.indices[o := Flip(part.indices[o], k)];
    ghost var faces1 := part.indices;
    fixed' := Fix(part, orig, edges, fixed, o);
    ProgressTrans(orig, faces0, fixed, faces1, fixed + {o}, part.indices, fixed');
  }

  /** A swapping loop of fix: over the faces listed under e, skipping the
      fixed ones, swap by k and fix. Every listed face ends fixed. */
  method FlipList(part: MeshPart<Face>, ghost orig: seq<Face>, edges: map<EdgeKey, seq<int>>, fixed: set<int>, e: EdgeKey, k: nat)
      returns (fixed': set<int>)
    requires Indexed(edges, orig) && k < 3
    requires Partial(part.indices, orig, fixed)
    modifies part`indices
    ensures Progress(orig, old(part.indices), fixed, part.indices, fixed')
    ensures forall o :: o in Lookup(edges, e) ==> o in fixed'
    decreases AllFaces(|orig|) - fixed, 2
  {
    var list := Lookup(edges, e);
    fixed' := fixed;
    for j := 0 to |list|
      invariant Progress(orig, old(part.indices), fixed, part.indices, fixed')
      invariant forall jj :: 0 <= jj < j ==> list[jj] in fixed'
    {
      var o := list[j];
      Listed(edges, orig, e, o);
      if o !in fixed' {
        ghost var faces1, fixed1 := part.indices, fixed';
        fixed' := FlipStep(part, orig, edges, fixed', o, k);
        ProgressTrans(orig, old(part.indices), fixed, faces1, fixed1, part.indices, fixed');
      }
    }
  }

  /** A visiting loop of fix: over the faces listed under e, fix the
      unfixed ones without a swap. When every listed face is already fixed,
      as it is where fix runs these loops, nothing changes. */
  method VisitList(part: MeshPart<Face>, ghost orig: seq<Face>, edges: map<EdgeKey, seq<int>>, fixed: set<int>, e: EdgeKey)
      returns (fixed': set<int>)
    requires Indexed(edges, orig)
    requires Partial(part.indices, orig, fixed)
    modifies part`indices
    ensures fixed <= fixed' && Partial(part.indices, orig, fixed')
    ensures forall o :: o in Lookup(edges, e) ==> o in fixed'
    ensures (forall o :: o in Lookup(edges, e) ==> o in fixed) ==> fixed' == fixed && part.indices == old(part.indices)
    decreases AllFaces(|orig|) - fixed, 2
  {
    var list := Lookup(edges, e);
    fixed' := fixed;
    for j := 0 to |list|
      invariant fixed <= fixed' && Partial(part.indices, orig, fixed')
      invariant forall jj :: 0 <= jj < j ==> list[jj] in fixed'
      invariant (forall o :: o in list ==> o in fixed) ==> fixed' == fixed && part.indices == old(part.indices)
    {
      var o := list[j];
      Listed(edges, orig, e, o);
      if o !in fixed' {
        fixed' := Fix(part, orig, edges, fixed', o);
      }
    }
  }

  /** Starting a new neighbourhood at an unfixed face i keeps the progress
      made so far, with i among the faces left as they were. */
  lemma AddRoot(orig: seq<Face>, roots: set<int>, faces: seq<Face>, fixed: set<int>, i: int)
    requires Progress(orig, orig, roots, faces, fixed) && 0 <= i < |orig| && i !in fixed
    ensures Progress(orig, orig, roots + {i}, faces, fixed + {i})
  {
  }

  /** The top-level loop after faces 0 .. i-1: each of them is fixed, the
      faces fix was started on (face 0 first) kept their winding and every
      other fixed face was flipped once. */
  ghost predicate Swept(orig: seq<Face>, roots: set<int>, faces: seq<Face>, fixed: set<int>, i: nat)
  {
    i <= |orig| && Progress(orig, orig, roots, faces, fixed) &&
    (forall o :: 0 <= o < i ==> o in fixed) &&
    (i == 0 ==> fixed == {}) && (i > 0 ==> 0 in roots)
  }

  /** One turn of the top-level loop: fix face i unless already fixed. */
  method FixFrom(part: MeshPart<Face>, ghost orig: seq<Face>, edges: map<EdgeKey, seq<int>>,
                 fixed: set<int>, ghost roots: set<int>, i: nat)
      returns (fixed': set<int>, ghost roots': set<int>)
    requires Indexed(edges, orig) && i < |orig|
    requires Swept(orig, roots, part.indices, fixed, i)
    modifies part`indices
    ensures Swept(orig, roots', part.indices, fixed', i + 1)
  {
    fixed', roots' := fixed, roots;
    if i !in fixed {
      AddRoot(orig, roots, part.indices, fixed, i);
      ghost var faces1 := part.indices;
      fixed' := Fix(part, orig, edges, fixed, i);
      ProgressTrans(orig, orig, roots + {i}, faces1, fixed + {i}, part.indices, fixed');
      roots' := roots + {i};
    }
  }

  /** A flipped face keeps its vertices. */
  lemma FlippedCorners(f: Face, g: Face)
    requires Flipped(f, g)
    ensures Corners(g) == Corners(f)
  {
    var k := if g == Flip(f, 0) then 0 else if g == Flip(f, 1) then 1 else 2;
    FlipCorners(f, k);
  }

  /** The winding fix of AutoNormals: the edge map, then fix on every face
      not yet fixed, in face order. Every face ends fixed; the faces fix
      was started on (the first of each neighbourhood, face 0 among them)
      keep their winding and every other face is flipped exactly once, so
      each face keeps its vertices. */
  method FixWinding(part: MeshPart<Face>) returns (fixed: set<int>, ghost roots: set<int>)
    modifies part`indices
    ensures |part.indices| == |old(part.indices)|
    ensures forall o :: 0 <= o < |part.indices| ==> o in fixed
    ensures forall o :: 0 <= o < |part.indices| && o in roots ==> part.indices[o] == old(part.indices)[o]
    ensures forall o :: 0 <= o < |part.indices| && o !in roots ==> Flipped(old(part.indices)[o], part.indices[o])
    ensures forall o :: 0 <= o < |part.indices| ==> Corners(part.indices[o]) == Corners(old(part.indices)[o])
    ensures |part.indices| > 0 ==> 0 in roots
  {
    ghost var orig := part.indices;
    var edges := BuildEdges(part.indices);
    BuiltIndexed(edges, orig);
    fixed := {};
    roots := {};
    for i := 0 to |part.indices|
      invariant |part.indices| == |orig|
      invariant Swept(orig, roots, part.indices, fixed, i)
    {
      fixed, roots := FixFrom(part, orig, edges, fixed, roots, i);
    }
    forall o | 0 <= o < |orig|
      ensures Corners(part.indices[o]) == Corners(orig[o])
    {
      if o !in roots {
        FlippedCorners(orig[o], part.indices[o]);
      }
    }
  }
}
