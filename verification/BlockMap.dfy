/**
 Who owns which disk block (kernel/fs.c): the bitmap against the block numbers that
 the inodes hold. Each inode has SLOTS places for a block number: slots 0 .. 11 are
 the direct blocks, slot 12 is the indirect block and slot 13 + j its entry j.
 */
module BlockMap {
  import opened Budget

  const NDIRECT := 12
  const NINDIRECT := 256
  const SLOTS := 269          // NDIRECT + 1 + NINDIRECT
  const MAXFILE := 268        // NDIRECT + NINDIRECT

  datatype Owner = Free | Reserved | Slot(inum: nat, k: nat)

  /** The bitmap and, per inode, the block number in each slot, 0 for none. */
  datatype Map = Map(used: seq<bool>, refs: seq<seq<nat>>)

  ghost predicate Shape(m: Map, owner: seq<Owner>, first: nat) {
    && |m.used| == |owner| && 0 < first
    && forall i :: 0 <= i < |m.refs| ==> |m.refs[i]| == SLOTS
  }

  /** A block in a slot is a data block that belongs to this slot. */
  ghost predicate SlotOk(m: Map, owner: seq<Owner>, first: nat, i: nat, k: nat)
    requires i < |m.refs| && k < |m.refs[i]|
  {
    var b := m.refs[i][k];
    b != 0 ==> first <= b < |owner| && owner[b] == Slot(i, k)
  }

  /** A block is marked in use exactly if it has an owner, and its owner holds it. */
  ghost predicate BlockOk(m: Map, owner: seq<Owner>, first: nat, b: nat)
    requires b < |m.used| == |owner|
  {
    var o := owner[b];
    && (m.used[b] <==> o != Free) && (o.Reserved? <==> b < first)
    && (o.Slot? ==> o.inum < |m.refs| && o.k < |m.refs[o.inum]| && m.refs[o.inum][o.k] == b)
  }

  ghost predicate Owns(m: Map, owner: seq<Owner>, first: nat) {
    && Shape(m, owner, first)
    && (forall i, k :: 0 <= i < |m.refs| && 0 <= k < |m.refs[i]| ==> SlotOk(m, owner, first, i, k))
    && (forall b :: 0 <= b < |m.used| ==> BlockOk(m, owner, first, b))
  }

  ghost predicate Holds(m: Map, i: nat, k: nat, b: nat) {
    i < |m.refs| && k < |m.refs[i]| && m.refs[i][k] == b
  }

  /** A bitmap bit is set exactly if the block is reserved or held by a slot, and no two slots hold the same block. */
  lemma ReferencedOnce(m: Map, owner: seq<Owner>, first: nat, b: nat)
    requires Owns(m, owner, first) && 0 < b < |m.used|
    ensures m.used[b] <==> b < first || exists i, k :: Holds(m, i, k, b)
    ensures forall i, k :: Holds(m, i, k, b) ==> b >= first
    ensures forall i, k, j, l :: Holds(m, i, k, b) && Holds(m, j, l, b) ==> i == j && k == l
  {
    assert BlockOk(m, owner, first, b);
    if owner[b].Slot? { assert Holds(m, owner[b].inum, owner[b].k, b); }
    forall i, k | Holds(m, i, k, b) ensures owner[b] == Slot(i, k) && b >= first {
      assert SlotOk(m, owner, first, i, k);
    }
  }

  /** Slot k of inode i gets block b. */
  ghost function Assign(m: Map, i: nat, k: nat, b: nat): Map
    requires i < |m.refs| && k < |m.refs[i]| && b < |m.used|
  {
    var slots: seq<nat> := m.refs[i][k := b];
    Map(m.used[b := true], m.refs[i := slots])
  }

  lemma AssignOwns(m: Map, owner: seq<Owner>, first: nat, i: nat, k: nat, b: nat)
    requires Owns(m, owner, first) && i < |m.refs| && k < SLOTS && m.refs[i][k] == 0 && b < |m.used| && !m.used[b]
    ensures first <= b && owner[b] == Free && Owns(Assign(m, i, k, b), owner[b := Slot(i, k)], first)
  {
    assert BlockOk(m, owner, first, b);
    var m', owner' := Assign(m, i, k, b), owner[b := Slot(i, k)];
    forall j, l | 0 <= j < |m'.refs| && 0 <= l < |m'.refs[j]| ensures SlotOk(m', owner', first, j, l) {
      assert SlotOk(m, owner, first, j, l);
    }
    forall c | 0 <= c < |m'.used| ensures BlockOk(m', owner', first, c) {
      assert BlockOk(m, owner, first, c);
    }
  }

  // ---- what slots cost ----

  ghost function Filled(m: Map, i: nat): set<nat>
    requires i < |m.refs|
  {
    set k | 0 <= k < |m.refs[i]| && m.refs[i][k] != 0
  }

  ghost function FreeBlocks(m: Map): set<nat> { set b | 0 <= b < |m.used| && !m.used[b] }

  ghost predicate BoughtFor(m0: Map, m: Map, i: nat, ks: set<nat>) {
    i < |m0.refs| && i < |m.refs| && Spent(Filled(m0, i), |FreeBlocks(m0)|, Filled(m, i), |FreeBlocks(m)|, ks, 0)
  }

  ghost predicate TooFewFor(m: Map, i: nat, ks: set<nat>) {
    i < |m.refs| && Short(Filled(m, i), |FreeBlocks(m)|, ks, 0)
  }

  // The quantifiers have one instance; they keep the sets out of the methods.

  /** Since m0, inode i has got blocks for the slots ks, and nobody else has got any. */
  ghost predicate Bought(m0: Map, m: Map, i: nat, ks: set<nat>) { forall j: nat :: j == i ==> BoughtFor(m0, m, j, ks) }

  /** There are fewer free blocks than the slots ks of inode i lack. */
  ghost predicate TooFew(m: Map, i: nat, ks: set<nat>) { forall j: nat :: j == i ==> TooFewFor(m, j, ks) }

  lemma BoughtNone(m: Map, i: nat)
    requires i < |m.refs|
    ensures Bought(m, m, i, {})
  {
    SpentNone(Filled(m, i), |FreeBlocks(m)|);
  }

  lemma BoughtThere(m: Map, i: nat, k: nat)
    requires i < |m.refs| && k < |m.refs[i]| && m.refs[i][k] != 0
    ensures Bought(m, m, i, {k})
  {
    SpentThere(Filled(m, i), |FreeBlocks(m)|, k);
  }

  lemma BoughtAssign(m: Map, i: nat, k: nat, b: nat)
    requires i < |m.refs| && k < |m.refs[i]| && m.refs[i][k] == 0 && 0 < b < |m.used| && !m.used[b]
    ensures Bought(m, Assign(m, i, k, b), i, {k})
  {
    var m' := Assign(m, i, k, b);
    assert Filled(m', i) == Filled(m, i) + {k};
    assert FreeBlocks(m) == FreeBlocks(m') + {b} && b !in FreeBlocks(m');
    SpentAdd(Filled(m, i), |FreeBlocks(m)|, k);
  }

  lemma NoneLeft(m: Map, i: nat, k: nat)
    requires i < |m.refs| && k < |m.refs[i]| && m.refs[i][k] == 0 && forall b :: 0 <= b < |m.used| ==> m.used[b]
    ensures TooFew(m, i, {k})
  {
    assert FreeBlocks(m) == {} && {k} - Filled(m, i) == {k};
  }

  lemma BoughtThen(m: Map, m1: Map, m2: Map, i: nat, a: set<nat>, b: set<nat>)
    requires Bought(m, m1, i, a) && Bought(m1, m2, i, b)
    ensures Bought(m, m2, i, a + b)
  {
    assert BoughtFor(m, m1, i, a) && BoughtFor(m1, m2, i, b);
    SpentThen(Filled(m, i), |FreeBlocks(m)|, Filled(m1, i), |FreeBlocks(m1)|, Filled(m2, i), |FreeBlocks(m2)|, a, 0,
              b, 0);
  }

  lemma TooFewThen(m: Map, m1: Map, i: nat, a: set<nat>, b: set<nat>)
    requires Bought(m, m1, i, a) && TooFew(m1, i, b)
    ensures TooFew(m, i, a + b)
  {
    assert BoughtFor(m, m1, i, a) && TooFewFor(m1, i, b);
    ShortThen(Filled(m, i), |FreeBlocks(m)|, Filled(m1, i), |FreeBlocks(m1)|, a, 0, b, 0);
  }

  lemma TooFewMore(m: Map, i: nat, a: set<nat>, b: set<nat>)
    requires TooFew(m, i, a) && a <= b
    ensures TooFew(m, i, b)
  {
    assert TooFewFor(m, i, a);
    assert Lacks(Filled(m, i), |FreeBlocks(m)|, a, 0);
    MissingMore(Filled(m, i), a, b);
  }

  lemma BoughtEnough(m: Map, m1: Map, i: nat, a: set<nat>)
    requires Bought(m, m1, i, a)
    ensures !TooFew(m, i, a)
  {
    assert BoughtFor(m, m1, i, a);
    Enough(Filled(m, i), |FreeBlocks(m)|, Filled(m1, i), |FreeBlocks(m1)|, a, 0);
    assert !TooFewFor(m, i, a);
  }

  /** The block in slot k of inode i is given back. */
  ghost function Clear(m: Map, i: nat, k: nat): Map
    requires i < |m.refs| && k < |m.refs[i]| && m.refs[i][k] < |m.used|
  {
    var slots: seq<nat> := m.refs[i][k := 0];
    Map(m.used[m.refs[i][k] := false], m.refs[i := slots])
  }

  lemma ClearOwns(m: Map, owner: seq<Owner>, first: nat, i: nat, k: nat)
    requires Owns(m, owner, first) && i < |m.refs| && k < SLOTS && m.refs[i][k] != 0
    ensures
      var b := m.refs[i][k];
      && first <= b < |m.used| && m.used[b] && owner[b] == Slot(i, k)
      && Owns(Clear(m, i, k), owner[b := Free], first)
  {
    var b := m.refs[i][k];
    assert SlotOk(m, owner, first, i, k) && BlockOk(m, owner, first, b);
    var m', owner' := Clear(m, i, k), owner[b := Free];
    forall j, l | 0 <= j < |m'.refs| && 0 <= l < |m'.refs[j]| ensures SlotOk(m', owner', first, j, l) {
      assert SlotOk(m, owner, first, j, l);
    }
    forall c | 0 <= c < |m'.used| ensures BlockOk(m', owner', first, c) {
      assert BlockOk(m, owner, first, c);
    }
  }

  /** When inode i gives up all its slots and no other slot changes, exactly its blocks become free. */
  lemma FreesOwn(m: Map, owner: seq<Owner>, m': Map, owner': seq<Owner>, first: nat, i: nat, b: nat)
    requires Owns(m, owner, first) && Owns(m', owner', first) && |m'.used| == |m.used| && |m'.refs| == |m.refs|
      && i < |m.refs|
    requires forall j :: 0 <= j < |m.refs| && j != i ==> m'.refs[j] == m.refs[j]
    requires forall k :: 0 <= k < SLOTS ==> m'.refs[i][k] == 0
    requires 0 < b < |m.used|
    ensures m'.used[b] <==> m.used[b] && !exists k :: Holds(m, i, k, b)
  {
    ReferencedOnce(m, owner, first, b);
    ReferencedOnce(m', owner', first, b);
    assert forall j, k :: j != i ==> (Holds(m', j, k, b) <==> Holds(m, j, k, b));
  }
}
