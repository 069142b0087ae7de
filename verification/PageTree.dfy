/**
 Who owns which physical page (kernel/vm.c, kernel/kalloc.c), and what a three-level
 page table means. A node of a page table is named by the table (the page number of
 its root), its depth and its place there: depth 0 is the root, depths 1 and 2 are
 the lower tables, and depth 3 is the leaf for virtual page idx. This is the Sv39
 scheme of section 4.4 of the RISC-V Privileged Architecture manual, without its top bit.
 */
module PageTree {
  datatype Key = Key(t: nat, d: nat, idx: nat)

  /** The page a node's entry names, and the low ten bits of the entry. */
  datatype Ent = Ent(ppn: nat, flags: nat)

  /** Every node of every table, with its entry. */
  type Refs = map<Key, Ent>

  /** Held is a page that kalloc has returned and that is not yet, or no longer, part of a table. */
  datatype Owner = Free | Held | Reserved | Own(k: Key)

  const PTE_V := 1
  const PTE_U := 16

  predicate HasV(flags: nat) { flags % 2 == 1 }

  predicate HasU(flags: nat) { flags / 16 % 2 == 1 }

  /** PTE_R, PTE_W or PTE_X. */
  predicate HasRWX(flags: nat) { flags / 2 % 8 != 0 }

  function Parent(k: Key): Key
    requires k.d > 0
  {
    Key(k.t, k.d - 1, k.idx / 512)
  }

  function Child(k: Key, e: nat): Key { Key(k.t, k.d + 1, k.idx * 512 + e) }

  lemma ParentChild(k: Key, e: nat)
    requires e < 512
    ensures Parent(Child(k, e)) == k && Child(k, e).idx % 512 == e
  {
  }

  /**
   A node hangs below its parent. A table owns its page; so does a user leaf, but a leaf
   may also name a page of others.
   */
  ghost predicate NodeOk(refs: Refs, owner: seq<Owner>, k: Key)
    requires k in refs
  {
    var e := refs[k];
    && k.d <= 3 && e.flags < 1024 && HasV(e.flags) && e.ppn < |owner|
    && (k.d == 0 ==> k.idx == 0 && e.ppn == k.t)
    && (k.d > 0 ==> Parent(k) in refs)
    && (if k.d < 3 then e.flags == PTE_V && owner[e.ppn] == Own(k)
        else HasRWX(e.flags) && (owner[e.ppn] == Own(k) || (owner[e.ppn] == Reserved && !HasU(e.flags))))
  }

  ghost predicate PageOk(refs: Refs, owner: seq<Owner>, p: nat)
    requires p < |owner|
  {
    owner[p].Own? ==> owner[p].k in refs && refs[owner[p].k].ppn == p
  }

  ghost predicate TreeOk(refs: Refs, owner: seq<Owner>) {
    && (forall k :: k in refs ==> NodeOk(refs, owner, k))
    && (forall p :: 0 <= p < |owner| ==> PageOk(refs, owner, p))
  }

  /** Two nodes own two pages. */
  lemma OwnApart(refs: Refs, owner: seq<Owner>, k: Key, l: Key)
    requires TreeOk(refs, owner) && k in refs && l in refs && k != l && refs[k].ppn == refs[l].ppn
    ensures k.d == 3 && l.d == 3 && owner[refs[k].ppn] == Reserved
  {
    assert NodeOk(refs, owner, k) && NodeOk(refs, owner, l);
  }

  ghost function Add(refs: Refs, k: Key, p: nat, flags: nat): Refs { refs[k := Ent(p, flags)] }

  /** A held page becomes a lower table or a leaf. */
  lemma AddOk(refs: Refs, owner: seq<Owner>, k: Key, p: nat, flags: nat)
    requires TreeOk(refs, owner) && k !in refs && 0 < k.d <= 3 && Parent(k) in refs && p < |owner| && owner[p] == Held
    requires HasV(flags) && flags < 1024 && if k.d < 3 then flags == PTE_V else HasRWX(flags)
    ensures TreeOk(Add(refs, k, p, flags), owner[p := Own(k)])
  {
    var refs', owner' := Add(refs, k, p, flags), owner[p := Own(k)];
    forall l | l in refs' ensures NodeOk(refs', owner', l) {
      if l != k { assert NodeOk(refs, owner, l); }
    }
    forall q | 0 <= q < |owner'| ensures PageOk(refs', owner', q) {
      assert PageOk(refs, owner, q);
    }
  }

  /** A held page becomes the root of a new table. */
  lemma AddRootOk(refs: Refs, owner: seq<Owner>, p: nat)
    requires TreeOk(refs, owner) && Key(p, 0, 0) !in refs && p < |owner| && owner[p] == Held
    ensures TreeOk(Add(refs, Key(p, 0, 0), p, PTE_V), owner[p := Own(Key(p, 0, 0))])
  {
    var k := Key(p, 0, 0);
    var refs', owner' := Add(refs, k, p, PTE_V), owner[p := Own(k)];
    forall l | l in refs' ensures NodeOk(refs', owner', l) {
      if l != k { assert NodeOk(refs, owner, l); }
    }
    forall q | 0 <= q < |owner'| ensures PageOk(refs', owner', q) {
      assert PageOk(refs, owner, q);
    }
  }

  /** A leaf for a page of others. */
  lemma AddForeignOk(refs: Refs, owner: seq<Owner>, k: Key, p: nat, flags: nat)
    requires TreeOk(refs, owner) && k !in refs && k.d == 3 && Parent(k) in refs && p < |owner| && owner[p] == Reserved
    requires HasV(flags) && flags < 1024 && HasRWX(flags) && !HasU(flags)
    ensures TreeOk(Add(refs, k, p, flags), owner)
  {
    var refs' := Add(refs, k, p, flags);
    forall l | l in refs' ensures NodeOk(refs', owner, l) {
      if l != k { assert NodeOk(refs, owner, l); }
    }
    forall q | 0 <= q < |owner| ensures PageOk(refs', owner, q) {
      assert PageOk(refs, owner, q);
    }
  }

  ghost predicate Childless(refs: Refs, k: Key) { forall l :: l in refs && l.d > 0 ==> Parent(l) != k }

  ghost function Released(refs: Refs, owner: seq<Owner>, k: Key): seq<Owner>
    requires k in refs && refs[k].ppn < |owner|
  {
    if owner[refs[k].ppn] == Own(k) then owner[refs[k].ppn := Held] else owner
  }

  /** A node without children leaves its table. */
  lemma RemoveOk(refs: Refs, owner: seq<Owner>, k: Key)
    requires TreeOk(refs, owner) && k in refs && Childless(refs, k)
    ensures refs[k].ppn < |owner| && TreeOk(refs - {k}, Released(refs, owner, k))
  {
    assert NodeOk(refs, owner, k);
    var refs', owner' := refs - {k}, Released(refs, owner, k);
    forall l | l in refs' ensures NodeOk(refs', owner', l) {
      assert NodeOk(refs, owner, l);
      if l.d > 0 { assert Parent(l) != k; }
    }
    forall q | 0 <= q < |owner'| ensures PageOk(refs', owner', q) {
      assert PageOk(refs, owner, q);
    }
  }

  // ---- subtrees ----

  /** Node l is k or hangs below it. */
  ghost predicate Under(l: Key, k: Key)
    decreases l.d
  {
    l == k || (l.d > k.d && Under(Parent(l), k))
  }

  /** Node l hangs below one of the first n entries of k. */
  ghost predicate Below(l: Key, k: Key, n: nat) { exists e :: 0 <= e < n && Under(l, Child(k, e)) }

  ghost function Subtree(refs: Refs, k: Key): set<Key> { set l | l in refs && Under(l, k) }

  ghost function Subtrees(refs: Refs, k: Key, n: nat): set<Key> { set l | l in refs && Below(l, k, n) }

  lemma {:induction false} UnderThere(refs: Refs, owner: seq<Owner>, l: Key, k: Key)
    requires TreeOk(refs, owner) && l in refs && Under(l, k)
    ensures k in refs
    decreases l.d
  {
    if l != k {
      assert NodeOk(refs, owner, l);
      UnderThere(refs, owner, Parent(l), k);
    }
  }

  lemma {:induction false} UnderChild(l: Key, k: Key)
    requires Under(l, k) && l != k
    ensures Below(l, k, 512)
    decreases l.d
  {
    if Parent(l) == k {
      assert l == Child(k, l.idx % 512);
      assert Under(l, Child(k, l.idx % 512));
    } else {
      UnderChild(Parent(l), k);
      var e :| 0 <= e < 512 && Under(Parent(l), Child(k, e));
      UnderDepth(Parent(l), Child(k, e));
      assert Under(l, Child(k, e));
    }
  }

  lemma {:induction false} UnderDepth(l: Key, k: Key)
    requires Under(l, k)
    ensures l.d >= k.d && l.t == k.t
    decreases l.d
  {
    if l != k { UnderDepth(Parent(l), k); }
  }

  lemma {:induction false} ChildUnder(l: Key, k: Key, e: nat)
    requires e < 512 && Under(l, Child(k, e))
    ensures Under(l, k) && l != k
    decreases l.d
  {
    ParentChild(k, e);
    UnderDepth(l, Child(k, e));
    if l == Child(k, e) {
      assert Under(k, k);
      assert Under(Parent(l), k);
    } else {
      ChildUnder(Parent(l), k, e);
    }
  }

  /** The subtree of k is k and the subtrees of its entries. */
  lemma SubtreeParts(refs: Refs, k: Key)
    requires k in refs
    ensures Subtree(refs, k) == Subtrees(refs, k, 512) + {k} && k !in Subtrees(refs, k, 512)
  {
    forall l | l in refs ensures l in Subtree(refs, k) <==> l in Subtrees(refs, k, 512) + {k} {
      if Under(l, k) && l != k { UnderChild(l, k); }
      if e :| 0 <= e < 512 && Under(l, Child(k, e)) { ChildUnder(l, k, e); }
    }
    if e :| 0 <= e < 512 && Under(k, Child(k, e)) { ChildUnder(k, k, e); }
  }

  lemma SubtreesNext(refs: Refs, k: Key, n: nat)
    ensures Subtrees(refs, k, n + 1) == Subtrees(refs, k, n) + Subtree(refs - Subtrees(refs, k, n), Child(k, n))
  {
    forall l | l in refs ensures Below(l, k, n + 1) <==> Below(l, k, n) || Under(l, Child(k, n)) {
      if Under(l, Child(k, n)) { assert Below(l, k, n + 1); }
      if e :| 0 <= e < n && Under(l, Child(k, e)) { assert Below(l, k, n + 1); }
    }
  }

  lemma {:induction false} UnderRoot(refs: Refs, owner: seq<Owner>, l: Key)
    requires TreeOk(refs, owner) && l in refs
    ensures Under(l, Key(l.t, 0, 0))
    decreases l.d
  {
    assert NodeOk(refs, owner, l);
    if l.d > 0 { UnderRoot(refs, owner, Parent(l)); }
  }
}
