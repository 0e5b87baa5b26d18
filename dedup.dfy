/** The vertex deduplication table shared by every revision: a linear scan
    for an exact match, otherwise an append. The scan itself is the generic
    method `Lookup`; the MeshPart classes of each revision call it from their
    own AddVertex. */
module Dedup {
  import opened Types

  /** No value occurs twice. */
  ghost predicate NoDup<V>(s: seq<V>)
  {
    forall i, j :: 0 <= i < j < |s| ==> s[i] != s[j]
  }

  /** Index of the first occurrence of `v` in `s`, or |s| when it is absent. */
  function Position<V(==)>(s: seq<V>, v: V): (p: nat)
    ensures p <= |s|
    ensures p < |s| ==> s[p] == v
    ensures forall k :: 0 <= k < p ==> s[k] != v
    ensures p == |s| <==> v !in s
  {
    if s == [] then 0
    else if s[0] == v then 0
    else 1 + Position(s[1..], v)
  }

  /** The table after an insertion: unchanged when a match exists, else extended. */
  function Inserted<V(==)>(s: seq<V>, v: V): seq<V>
  {
    if v in s then s else s + [v]
  }

  /** The scan of AddVertex: walk the table, stop at the first exact match. */
  method Lookup<V(==)>(vs: seq<V>, v: V) returns (j: nat)
    ensures j == Position(vs, v)
    ensures j <= |vs|
    ensures j < |vs| ==> vs[j] == v
    ensures forall k :: 0 <= k < j ==> vs[k] != v
  {
    j := 0;
    while j < |vs|
      invariant j <= |vs|
      invariant forall k :: 0 <= k < j ==> vs[k] != v
    {
      if vs[j] == v {
        return;
      }
      j := j + 1;
    }
  }

  /** After an insertion the value sits at the reported position, the old
      table is a prefix of the new one, and a duplicate-free table stays
      duplicate-free. */
  lemma InsertedFacts<V>(s: seq<V>, v: V)
    ensures |Inserted(s, v)| == |s| + (if v in s then 0 else 1)
    ensures Position(s, v) < |Inserted(s, v)|
    ensures Inserted(s, v)[Position(s, v)] == v
    ensures Inserted(s, v)[..|s|] == s
    ensures NoDup(s) ==> NoDup(Inserted(s, v))
  {
  }

  /** In a duplicate-free table, equal positions mean equal values and
      the position of each element is its own index. */
  lemma {:induction false} PositionOfElement<V>(s: seq<V>, i: nat)
    requires NoDup(s) && i < |s|
    ensures Position(s, s[i]) == i
  {
  }

  /** Inserting the same value twice answers the same position and leaves
      the table as after the first insertion. */
  lemma InsertTwice<V>(s: seq<V>, v: V)
    ensures Inserted(Inserted(s, v), v) == Inserted(s, v)
    ensures Position(Inserted(s, v), v) == Position(s, v)
  {
    var t := Inserted(s, v);
    var p := Position(s, v);
    if v !in s {
      assert forall k :: 0 <= k < |s| ==> t[k] == s[k];
    }
  }

  /** Two values that differ end up at different positions (once both are in). */
  lemma DistinctValuesDistinctPositions<V>(s: seq<V>, a: V, b: V)
    requires a != b
    ensures var t := Inserted(Inserted(s, a), b);
            Position(t, a) != Position(t, b)
  {
    var t := Inserted(Inserted(s, a), b);
    InsertedFacts(s, a);
    InsertedFacts(Inserted(s, a), b);
    assert a in t;
    assert b in t;
  }

  /** The table after inserting `vs` one after another, as repeated AddVertex calls leave it. */
  function InsertAll<V(==)>(t: seq<V>, vs: seq<V>): seq<V>
    decreases |vs|
  {
    if vs == [] then t else InsertAll(Inserted(t, vs[0]), vs[1..])
  }

  /** The index AddVertex hands back for `v`: its position counted in a
      Uint16, stored in a Sint16 slot. */
  function IndexOf<V(==)>(t: seq<V>, v: V): int
  {
    ToSint16(Position(t, v) % 0x1_0000)
  }

  /** The indices pushed when `vs` are added one after another. */
  function Indices<V(==)>(t: seq<V>, vs: seq<V>): seq<int>
    decreases |vs|
  {
    if vs == [] then [] else [IndexOf(t, vs[0])] + Indices(Inserted(t, vs[0]), vs[1..])
  }

  /** Adding `a` and then `b` is adding `a + b`: the table is the same and
      the indices are those of `a` followed by those of `b`. */
  lemma {:induction false} InsertAllAppend<V>(t: seq<V>, a: seq<V>, b: seq<V>)
    ensures InsertAll(t, a + b) == InsertAll(InsertAll(t, a), b)
    ensures Indices(t, a + b) == Indices(t, a) + Indices(InsertAll(t, a), b)
    decreases |a|
  {
    if a == [] {
      assert a + b == b;
    } else {
      assert (a + b)[0] == a[0];
      assert (a + b)[1..] == a[1..] + b;
      InsertAllAppend(Inserted(t, a[0]), a[1..], b);
    }
  }

  /** Adding one more value: the table grows as Inserted says and one index
      is appended, the position of the value in the table before. */
  lemma InsertAllSnoc<V>(t: seq<V>, vs: seq<V>, v: V)
    ensures InsertAll(t, vs + [v]) == Inserted(InsertAll(t, vs), v)
    ensures Indices(t, vs + [v]) == Indices(t, vs) + [IndexOf(InsertAll(t, vs), v)]
  {
    InsertAllAppend(t, vs, [v]);
    var u := InsertAll(t, vs);
    assert [v][1..] == [];
    assert InsertAll(u, [v]) == InsertAll(Inserted(u, v), []);
    assert Indices(u, [v]) == [IndexOf(u, v)] + Indices(Inserted(u, v), []);
  }

  /** What a run of insertions keeps: one index per value, the old table
      as a prefix, every inserted value present, nothing else added, and
      no duplicate introduced. */
  lemma {:induction false} InsertAllFacts<V>(t: seq<V>, vs: seq<V>)
    ensures |Indices(t, vs)| == |vs|
    ensures |t| <= |InsertAll(t, vs)| <= |t| + |vs|
    ensures InsertAll(t, vs)[..|t|] == t
    ensures forall v :: v in InsertAll(t, vs) <==> v in t || v in vs
    ensures NoDup(t) ==> NoDup(InsertAll(t, vs))
    decreases |vs|
  {
    if vs != [] {
      var t1 := Inserted(t, vs[0]);
      InsertedFacts(t, vs[0]);
      InsertAllFacts(t1, vs[1..]);
      assert InsertAll(t, vs)[..|t1|][..|t|] == t;
      assert forall v :: v in vs <==> v == vs[0] || v in vs[1..];
    }
  }

  /** The position of a value already in the table does not move when more
      values are inserted. */
  lemma {:induction false} PositionStable<V>(t: seq<V>, vs: seq<V>, v: V)
    requires v in t
    ensures Position(InsertAll(t, vs), v) == Position(t, v)
  {
    InsertAllFacts(t, vs);
    var u := InsertAll(t, vs);
    var p := Position(t, v);
    assert u[p] == t[p];
  }

  /** Every index handed back refers to the value that was added, provided
      the table ends with at most 0x8000 entries (so that neither the Uint16
      counter nor the Sint16 slot wraps): it is non-negative, in range, and
      the final table holds that value there. */
  lemma {:induction false} IndicesValid<V>(t: seq<V>, vs: seq<V>, k: nat)
    requires k < |vs| && |InsertAll(t, vs)| <= 0x8000
    ensures |Indices(t, vs)| == |vs|
    ensures 0 <= Indices(t, vs)[k] < |InsertAll(t, vs)|
    ensures InsertAll(t, vs)[Indices(t, vs)[k]] == vs[k]
    decreases |vs|
  {
    InsertAllFacts(t, vs);
    var t1 := Inserted(t, vs[0]);
    InsertAllFacts(t1, vs[1..]);
    if k == 0 {
      InsertedFacts(t, vs[0]);
      var p := Position(t, vs[0]);
      assert p < |t1| <= |InsertAll(t, vs)|;
      assert IndexOf(t, vs[0]) == p;
      assert InsertAll(t, vs)[p] == InsertAll(t1, vs[1..])[..|t1|][p];
    } else {
      IndicesValid(t1, vs[1..], k - 1);
    }
  }
}
