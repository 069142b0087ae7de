/**
 Page tables and the page allocator (kernel/vm.c:81-391, kernel/kalloc.c). Physical
 memory is a sequence of pages; a page holds page-table entries, data bytes or the
 link of the free list. Virtual and physical addresses of pages are page numbers.
 */
module Vm {
  import B = Block
  import opened Budget
  import opened PageTree

  const PGSIZE := 4096
  const MAXPAGE := 67108864       // MAXVA / PGSIZE, 2^26

  type Byte = B.Byte

  datatype Page = Table(ptes: seq<nat>) | Bytes(data: seq<Byte>) | Run(next: nat)

  // ---- page-table entries ----

  /** PA2PTE(pa) | flags */
  function MkPte(ppn: nat, flags: nat): nat { ppn * 1024 + flags }

  function Ppn(pte: nat): nat { pte / 1024 }

  function Flags(pte: nat): nat { pte % 1024 }

  lemma PteParts(ppn: nat, flags: nat)
    requires flags < 1024
    ensures Ppn(MkPte(ppn, flags)) == ppn && Flags(MkPte(ppn, flags)) == flags && MkPte(ppn, flags) % 2 == flags % 2
  {
  }

  lemma NotTable(flags: nat)
    requires HasRWX(flags)
    ensures flags != PTE_V
  {
    assert 1 / 2 % 8 == 0;
  }

  /** A leaf's entry is valid and not the entry of a lower table. */
  lemma LeafPte(ppn: nat, flags: nat, pte: nat)
    requires flags < 1024 && HasV(flags) && HasRWX(flags) && pte == MkPte(ppn, flags)
    ensures pte % 2 == 1 && Flags(pte) != PTE_V && Ppn(pte) == ppn && Flags(pte) == flags
  {
    PteParts(ppn, flags);
    NotTable(flags);
  }

  // ---- what memory shows ----

  ghost predicate EntryOk(mem: seq<Page>, refs: Refs, k: Key, e: nat)
    requires k in refs
  {
    var p := refs[k].ppn;
    && p < |mem| && mem[p].Table? && |mem[p].ptes| == 512 && e < 512
    && mem[p].ptes[e] == if Child(k, e) in refs then MkPte(refs[Child(k, e)].ppn, refs[Child(k, e)].flags) else 0
  }

  /** Every table page holds the entries of its children, and nothing else. */
  ghost predicate TablesOk(mem: seq<Page>, refs: Refs) {
    forall k, e :: k in refs && k.d < 3 && 0 <= e < 512 ==> EntryOk(mem, refs, k, e)
  }

  ghost predicate DataOk(lo: nat, hi: nat, mem: seq<Page>, owner: seq<Owner>, p: nat)
    requires p < |owner| == |mem|
  {
    && (owner[p] != Reserved ==> lo <= p < hi)
    && (owner[p].Own? && owner[p].k.d == 3 ==> mem[p].Bytes? && |mem[p].data| == PGSIZE)
  }

  /** The free list is a chain through exactly the free pages. */
  ghost predicate RunOk(mem: seq<Page>, owner: seq<Owner>, free: seq<nat>, i: nat)
    requires i < |free|
  {
    var p := free[i];
    p < |mem| == |owner| && owner[p] == Free && mem[p] == Run(if i + 1 < |free| then free[i + 1] else 0)
  }

  ghost predicate ChainOk(mem: seq<Page>, owner: seq<Owner>, free: seq<nat>, head: nat) {
    && head == (if |free| > 0 then free[0] else 0)
    && (forall i :: 0 <= i < |free| ==> RunOk(mem, owner, free, i))
    && (forall i, j :: 0 <= i < j < |free| ==> free[i] != free[j])
    && (forall p :: 0 <= p < |owner| && owner[p] == Free ==> p in free)
  }

  ghost predicate Ok(lo: nat, hi: nat, mem: seq<Page>, head: nat, free: seq<nat>, refs: Refs, owner: seq<Owner>) {
    && 0 < lo <= hi <= |mem| == |owner|
    && TreeOk(refs, owner) && TablesOk(mem, refs) && ChainOk(mem, owner, free, head)
    && (forall p :: 0 <= p < |owner| ==> DataOk(lo, hi, mem, owner, p))
  }

  /** As TablesOk, but for the entry of one node that has left the table. */
  ghost predicate TablesOkBut(mem: seq<Page>, refs: Refs, hole: Key) {
    forall k, e :: k in refs && k.d < 3 && 0 <= e < 512 && Child(k, e) != hole ==> EntryOk(mem, refs, k, e)
  }

  ghost predicate OkBut(lo: nat, hi: nat, mem: seq<Page>, head: nat, free: seq<nat>, refs: Refs, owner: seq<Owner>,
                        hole: Key)
  {
    && 0 < lo <= hi <= |mem| == |owner|
    && TreeOk(refs, owner) && TablesOkBut(mem, refs, hole) && ChainOk(mem, owner, free, head)
    && (forall p :: 0 <= p < |owner| ==> DataOk(lo, hi, mem, owner, p))
  }

  /** A root is no entry. */
  lemma NoHole(lo: nat, hi: nat, mem: seq<Page>, head: nat, free: seq<nat>, refs: Refs, owner: seq<Owner>, hole: Key)
    requires hole.d == 0
    ensures OkBut(lo, hi, mem, head, free, refs, owner, hole) <==> Ok(lo, hi, mem, head, free, refs, owner)
  {
    assert TablesOkBut(mem, refs, hole) <==> TablesOk(mem, refs) by {
      if TablesOkBut(mem, refs, hole) {
        forall k, e | k in refs && k.d < 3 && 0 <= e < 512 ensures EntryOk(mem, refs, k, e) {
          assert Child(k, e) != hole;
        }
      }
    }
  }

  /** Writing to a page that is no table keeps every table. */
  lemma NoTable(mem: seq<Page>, refs: Refs, owner: seq<Owner>, p: nat, x: Page)
    requires TreeOk(refs, owner) && TablesOk(mem, refs) && p < |mem| == |owner| && !(owner[p].Own? && owner[p].k.d < 3)
    ensures TablesOk(mem[p := x], refs)
  {
    var mem' := mem[p := x];
    forall k, e | k in refs && k.d < 3 && 0 <= e < 512 ensures EntryOk(mem', refs, k, e) {
      assert NodeOk(refs, owner, k) && EntryOk(mem, refs, k, e);
    }
  }

  // ---- kalloc and kfree ----

  /** The page of the first run leaves the free list. */
  lemma TakeOk(lo: nat, hi: nat, mem: seq<Page>, head: nat, free: seq<nat>, refs: Refs, owner: seq<Owner>, x: Page)
    requires Ok(lo, hi, mem, head, free, refs, owner) && |free| > 0
    ensures head == free[0] && lo <= head < hi && owner[head] == Free && mem[head].Run?
    ensures Ok(lo, hi, mem[head := x], mem[head].next, free[1..], refs, owner[head := Held])
  {
    assert RunOk(mem, owner, free, 0) && DataOk(lo, hi, mem, owner, head);
    var mem', owner', free' := mem[head := x], owner[head := Held], free[1..];
    NoTable(mem, refs, owner, head, x);
    forall k | k in refs ensures NodeOk(refs, owner', k) { assert NodeOk(refs, owner, k); }
    forall p | 0 <= p < |owner'| ensures PageOk(refs, owner', p) { assert PageOk(refs, owner, p); }
    forall i | 0 <= i < |free'| ensures RunOk(mem', owner', free', i) { assert RunOk(mem, owner, free, i + 1); }
    forall p | 0 <= p < |owner'| ensures DataOk(lo, hi, mem', owner', p) { assert DataOk(lo, hi, mem, owner, p); }
    forall p | 0 <= p < |owner'| && owner'[p] == Free ensures p in free' { assert p in free; }
  }

  /** A held page goes to the front of the free list. */
  lemma GiveOk(lo: nat, hi: nat, mem: seq<Page>, head: nat, free: seq<nat>, refs: Refs, owner: seq<Owner>, p: nat,
               hole: Key)
    requires OkBut(lo, hi, mem, head, free, refs, owner, hole) && p < |owner| && owner[p] == Held
    ensures lo <= p < hi && OkBut(lo, hi, mem[p := Run(head)], p, [p] + free, refs, owner[p := Free], hole)
  {
    assert DataOk(lo, hi, mem, owner, p);
    var mem', owner', free' := mem[p := Run(head)], owner[p := Free], [p] + free;
    forall k, e | k in refs && k.d < 3 && 0 <= e < 512 && Child(k, e) != hole ensures EntryOk(mem', refs, k, e) {
      assert NodeOk(refs, owner, k) && EntryOk(mem, refs, k, e);
    }
    forall k | k in refs ensures NodeOk(refs, owner', k) { assert NodeOk(refs, owner, k); }
    forall q | 0 <= q < |owner'| ensures PageOk(refs, owner', q) { assert PageOk(refs, owner, q); }
    forall i | 0 <= i < |free'| ensures RunOk(mem', owner', free', i) {
      if i > 0 { assert RunOk(mem, owner, free, i - 1); }
    }
    forall q | 0 <= q < |owner'| ensures DataOk(lo, hi, mem', owner', q) { assert DataOk(lo, hi, mem, owner, q); }
    forall q | 0 <= q < |owner'| && owner'[q] == Free ensures q in free' { if q != p { assert q in free; } }
    forall i, j | 0 <= i < j < |free'| ensures free'[i] != free'[j] {
      assert RunOk(mem, owner, free, j - 1);
    }
  }

  // ---- changing an entry ----

  function ZeroTable(): (p: Page)
    ensures p.Table? && |p.ptes| == 512 && forall e :: 0 <= e < 512 ==> p.ptes[e] == 0
  {
    Table(seq(512, _ => 0))
  }

  /** Memory with entry e of the table page p set to pte. */
  function SetPte(mem: seq<Page>, p: nat, e: nat, pte: nat): (r: seq<Page>)
    requires p < |mem| && mem[p].Table? && e < |mem[p].ptes|
    ensures |r| == |mem|
  {
    mem[p := Table(mem[p].ptes[e := pte])]
  }

  /** Entries other than entry e of node k stay as they are. */
  lemma OtherEntry(mem: seq<Page>, mem': seq<Page>, refs: Refs, refs': Refs, owner: seq<Owner>, k: Key, e: nat,
                   pte: nat, l: Key, f: nat)
    requires TreeOk(refs, owner) && k in refs && k.d < 3 && e < 512 && l in refs && l.d < 3
      && EntryOk(mem, refs, l, f) && EntryOk(mem, refs, k, e)
    requires |mem'| == |mem| && mem'[refs[k].ppn] == SetPte(mem, refs[k].ppn, e, pte)[refs[k].ppn]
    requires refs[l].ppn != refs[k].ppn ==> mem'[refs[l].ppn] == mem[refs[l].ppn]
    requires l in refs' && refs'[l] == refs[l] && (l != k || f != e)
    requires Child(l, f) in refs' <==> Child(l, f) in refs
    requires Child(l, f) in refs ==> refs'[Child(l, f)] == refs[Child(l, f)]
    ensures EntryOk(mem', refs', l, f)
  {
    if l != k && refs[l].ppn == refs[k].ppn { OwnApart(refs, owner, k, l); }
  }

  lemma ChildInjective(k: Key, e: nat, l: Key, f: nat)
    requires Child(k, e) == Child(l, f) && e < 512 && f < 512
    ensures k == l && e == f
  {
    ParentChild(k, e);
    ParentChild(l, f);
  }

  /** A zeroed held page p becomes the lower table behind entry e of node k. */
  lemma LinkTable(lo: nat, hi: nat, mem: seq<Page>, head: nat, free: seq<nat>, refs: Refs, owner: seq<Owner>, k: Key,
                  e: nat, p: nat)
    requires Ok(lo, hi, mem, head, free, refs, owner) && k in refs && k.d < 2 && e < 512 && Child(k, e) !in refs
    requires p < |owner| && owner[p] == Held && mem[p] == ZeroTable() && EntryOk(mem, refs, k, e)
    ensures Ok(lo, hi, SetPte(mem, refs[k].ppn, e, MkPte(p, PTE_V)), head, free, Add(refs, Child(k, e), p, PTE_V),
               owner[p := Own(Child(k, e))])
  {
    var c := Child(k, e);
    ParentChild(k, e);
    AddOk(refs, owner, c, p, PTE_V);
    assert NodeOk(refs, owner, k);
    var pg := refs[k].ppn;
    var mem', refs', owner' := SetPte(mem, pg, e, MkPte(p, PTE_V)), Add(refs, c, p, PTE_V), owner[p := Own(c)];
    forall l, f | l in refs' && l.d < 3 && 0 <= f < 512 ensures EntryOk(mem', refs', l, f) {
      if l == c {
        NewTable(refs, owner, c, f);
      } else {
        assert EntryOk(mem, refs, l, f) && NodeOk(refs, owner, l);
        if l != k || f != e {
          if Child(l, f) == c { ChildInjective(k, e, l, f); }
          OtherEntry(mem, mem', refs, refs', owner, k, e, MkPte(p, PTE_V), l, f);
        }
      }
    }
    LinkRest(lo, hi, mem, mem', head, free, owner, owner', pg, p);
  }

  /** A zeroed held page p becomes the root of a table of its own; no node of that table was left over. */
  lemma LinkRoot(lo: nat, hi: nat, mem: seq<Page>, head: nat, free: seq<nat>, refs: Refs, owner: seq<Owner>, p: nat)
    requires Ok(lo, hi, mem, head, free, refs, owner) && p < |owner| && owner[p] == Held && mem[p] == ZeroTable()
    ensures forall k :: k in refs ==> k.t != p
    ensures Ok(lo, hi, mem, head, free, Add(refs, Key(p, 0, 0), p, PTE_V), owner[p := Own(Key(p, 0, 0))])
  {
    var root := Key(p, 0, 0);
    assert root in refs ==> NodeOk(refs, owner, root);
    forall k | k in refs ensures k.t != p {
      if k.t == p {
        UnderRoot(refs, owner, k);
        UnderThere(refs, owner, k, root);
      }
    }
    AddRootOk(refs, owner, p);
    var refs', owner' := Add(refs, root, p, PTE_V), owner[p := Own(root)];
    forall l, f | l in refs' && l.d < 3 && 0 <= f < 512 ensures EntryOk(mem, refs', l, f) {
      if l != root { assert EntryOk(mem, refs, l, f); }
    }
    forall i | 0 <= i < |free| ensures RunOk(mem, owner', free, i) { assert RunOk(mem, owner, free, i); }
    forall q | 0 <= q < |owner'| ensures DataOk(lo, hi, mem, owner', q) { assert DataOk(lo, hi, mem, owner, q); }
  }

  /**
   Every physical page is on the free list, once, or held by who called kalloc, or
   reserved for others, or the page of exactly one table node or leaf.
   */
  lemma PageConservation(lo: nat, hi: nat, mem: seq<Page>, head: nat, free: seq<nat>, refs: Refs, owner: seq<Owner>,
                         p: nat)
    requires Ok(lo, hi, mem, head, free, refs, owner) && p < |owner|
    ensures p in free <==> owner[p] == Free
    ensures p in free || owner[p] == Held ==> forall k :: k in refs ==> refs[k].ppn != p
    ensures owner[p].Own? ==> owner[p].k in refs && forall k :: k in refs ==> (refs[k].ppn == p <==> k == owner[p].k)
    ensures lo <= p < hi || owner[p] == Reserved
    ensures forall i, j :: 0 <= i < j < |free| ==> free[i] != free[j]
  {
    assert PageOk(refs, owner, p) && DataOk(lo, hi, mem, owner, p);
    if p in free {
      var i :| 0 <= i < |free| && free[i] == p;
      assert RunOk(mem, owner, free, i);
    }
    forall k | k in refs && refs[k].ppn == p ensures owner[p] == Own(k) || owner[p] == Reserved {
      assert NodeOk(refs, owner, k);
    }
  }

  /** A node that is not there has no children. */
  lemma NewTable(refs: Refs, owner: seq<Owner>, c: Key, f: nat)
    requires TreeOk(refs, owner) && c !in refs && f < 512
    ensures Child(c, f) !in refs
  {
    ParentChild(c, f);
    assert Child(c, f) in refs ==> NodeOk(refs, owner, Child(c, f));
  }

  /** Changing table page pg and the owner of the held page p keeps the free list and the data pages. */
  lemma LinkRest(lo: nat, hi: nat, mem: seq<Page>, mem': seq<Page>, head: nat, free: seq<nat>, owner: seq<Owner>,
                 owner': seq<Owner>, pg: nat, p: nat)
    requires |mem| == |owner| == |mem'| == |owner'| && ChainOk(mem, owner, free, head) && pg < |mem| && p < |mem|
    requires forall q :: 0 <= q < |owner| ==> DataOk(lo, hi, mem, owner, q)
    requires owner[pg].Own? && owner[pg].k.d < 3 && owner[p] != Free
    requires forall q :: 0 <= q < |mem| && q != pg ==> mem'[q] == mem[q]
    requires forall q :: 0 <= q < |mem| && q != p ==> owner'[q] == owner[q]
    requires owner'[p] != Free && (owner'[p] != Reserved ==> owner[p] != Reserved)
      && (owner'[p].Own? && owner'[p].k.d == 3 ==> p != pg && mem[p].Bytes? && |mem[p].data| == PGSIZE)
    ensures ChainOk(mem', owner', free, head) && forall q :: 0 <= q < |owner'| ==> DataOk(lo, hi, mem', owner', q)
  {
    forall i | 0 <= i < |free| ensures RunOk(mem', owner', free, i) { assert RunOk(mem, owner, free, i); }
    forall q | 0 <= q < |owner'| ensures DataOk(lo, hi, mem', owner', q) { assert DataOk(lo, hi, mem, owner, q); }
  }

  /** Entry e of the lowest table k names page p: one of ours that holds data, or one of others. */
  lemma LinkLeaf(lo: nat, hi: nat, mem: seq<Page>, head: nat, free: seq<nat>, refs: Refs, owner: seq<Owner>, k: Key,
                 e: nat, p: nat, flags: nat)
    requires Ok(lo, hi, mem, head, free, refs, owner) && k in refs && k.d == 2 && e < 512 && Child(k, e) !in refs
      && EntryOk(mem, refs, k, e)
    requires p < |owner| && HasV(flags) && flags < 1024 && HasRWX(flags)
    requires (owner[p] == Held && mem[p].Bytes? && |mem[p].data| == PGSIZE) || (owner[p] == Reserved && !HasU(flags))
    ensures Ok(lo, hi, SetPte(mem, refs[k].ppn, e, MkPte(p, flags)), head, free, Add(refs, Child(k, e), p, flags),
               if owner[p] == Held then owner[p := Own(Child(k, e))] else owner)
  {
    var c := Child(k, e);
    ParentChild(k, e);
    if owner[p] == Held { AddOk(refs, owner, c, p, flags); } else { AddForeignOk(refs, owner, c, p, flags); }
    assert NodeOk(refs, owner, k);
    var pg := refs[k].ppn;
    var mem', refs' := SetPte(mem, pg, e, MkPte(p, flags)), Add(refs, c, p, flags);
    var owner' := if owner[p] == Held then owner[p := Own(c)] else owner;
    forall l, f | l in refs' && l.d < 3 && 0 <= f < 512 ensures EntryOk(mem', refs', l, f) {
      assert EntryOk(mem, refs, l, f) && NodeOk(refs, owner, l);
      if l != k || f != e {
        if Child(l, f) == c { ChildInjective(k, e, l, f); }
        OtherEntry(mem, mem', refs, refs', owner, k, e, MkPte(p, flags), l, f);
      }
    }
    LinkRest(lo, hi, mem, mem', head, free, owner, owner', pg, p);
  }

  /** A node below depth 3 has no children there. */
  lemma LeafChildless(refs: Refs, owner: seq<Owner>, c: Key)
    requires TreeOk(refs, owner) && c.d == 3
    ensures Childless(refs, c)
  {
    forall l | l in refs && l.d > 0 ensures Parent(l) != c { assert NodeOk(refs, owner, l); }
  }

  /** Entry e of the lowest table k is cleared. */
  lemma UnlinkLeaf(lo: nat, hi: nat, mem: seq<Page>, head: nat, free: seq<nat>, refs: Refs, owner: seq<Owner>, k: Key,
                   e: nat)
    requires Ok(lo, hi, mem, head, free, refs, owner) && k in refs && k.d == 2 && e < 512 && Child(k, e) in refs
      && EntryOk(mem, refs, k, e)
    ensures refs[Child(k, e)].ppn < |owner|
    ensures Ok(lo, hi, SetPte(mem, refs[k].ppn, e, 0), head, free, refs - {Child(k, e)},
               Released(refs, owner, Child(k, e)))
  {
    var c := Child(k, e);
    LeafChildless(refs, owner, c);
    RemoveOk(refs, owner, c);
    assert NodeOk(refs, owner, k) && NodeOk(refs, owner, c);
    var pg := refs[k].ppn;
    var mem', refs', owner' := SetPte(mem, pg, e, 0), refs - {c}, Released(refs, owner, c);
    forall l, f | l in refs' && l.d < 3 && 0 <= f < 512 ensures EntryOk(mem', refs', l, f) {
      assert EntryOk(mem, refs, l, f) && NodeOk(refs, owner, l);
      if l != k || f != e {
        if Child(l, f) == c { ChildInjective(k, e, l, f); }
        OtherEntry(mem, mem', refs, refs', owner, k, e, 0, l, f);
      }
    }
    LinkRest(lo, hi, mem, mem', head, free, owner, owner', pg, refs[c].ppn);
  }

  // ---- the path of a virtual page ----

  /** PX(level, va) */
  function Px(level: nat, vpn: nat): nat
    requires level <= 2
  {
    (if level == 2 then vpn / 262144 else if level == 1 then vpn / 512 else vpn) % 512
  }

  /** The node at depth d on the way to virtual page vpn of table t. */
  function Node(t: nat, vpn: nat, d: nat): Key
    requires d <= 3
  {
    Key(t, d, if d == 0 then 0 else if d == 1 then vpn / 262144 else if d == 2 then vpn / 512 else vpn)
  }

  lemma NodeStep(t: nat, vpn: nat, d: nat)
    requires d < 3 && vpn < MAXPAGE
    ensures Px(2 - d, vpn) < 512 && Child(Node(t, vpn, d), Px(2 - d, vpn)) == Node(t, vpn, d + 1)
    ensures Parent(Node(t, vpn, d + 1)) == Node(t, vpn, d)
  {
  }

  /** The three indexes of a page spell its number, so that two pages never share a path. */
  lemma PathSpells(vpn: nat)
    requires vpn < MAXPAGE
    ensures vpn == (Px(2, vpn) * 512 + Px(1, vpn)) * 512 + Px(0, vpn)
  {
    NodeStep(0, vpn, 0);
    NodeStep(0, vpn, 1);
    NodeStep(0, vpn, 2);
  }

  // ---- what an operation keeps ----

  ghost predicate SameAt(refs: Refs, refs': Refs, k: Key) {
    (k in refs' <==> k in refs) && (k in refs ==> refs'[k] == refs[k])
  }

  /** The flat maps of all tables are the same, and no lower table is lost. */
  ghost predicate SameMaps(refs: Refs, refs': Refs) {
    && (forall k: Key :: k.d == 0 || k.d == 3 ==> SameAt(refs, refs', k))
    && (forall k :: k in refs ==> k in refs')
  }

  predicate Data(o: Owner) { o.Own? && o.k.d == 3 }

  /** Page p, if it is not free or a table, is as before; and no page is held that was not. */
  ghost predicate KeptPage(mem: seq<Page>, owner: seq<Owner>, mem': seq<Page>, owner': seq<Owner>, p: nat) {
    && p < |mem| == |owner| == |mem'| == |owner'|
    && (owner[p] == Held || owner[p] == Reserved || Data(owner[p]) ==> owner'[p] == owner[p] && mem'[p] == mem[p])
    && (owner'[p] == Held || owner'[p] == Reserved || Data(owner'[p]) ==> owner[p] == owner'[p])
  }

  ghost predicate Kept(mem: seq<Page>, owner: seq<Owner>, mem': seq<Page>, owner': seq<Owner>) {
    |mem'| == |mem| == |owner| == |owner'| && forall p :: 0 <= p < |mem| ==> KeptPage(mem, owner, mem', owner', p)
  }

  lemma KeptThen(mem: seq<Page>, owner: seq<Owner>, mem': seq<Page>, owner': seq<Owner>, mem'': seq<Page>,
                 owner'': seq<Owner>)
    requires Kept(mem, owner, mem', owner') && Kept(mem', owner', mem'', owner'')
    ensures Kept(mem, owner, mem'', owner'')
  {
    forall p | 0 <= p < |mem| ensures KeptPage(mem, owner, mem'', owner'', p) {
      assert KeptPage(mem, owner, mem', owner', p) && KeptPage(mem', owner', mem'', owner'', p);
    }
  }

  lemma SameMapsThen(refs: Refs, refs': Refs, refs'': Refs)
    requires SameMaps(refs, refs') && SameMaps(refs', refs'')
    ensures SameMaps(refs, refs'')
  {
    forall k: Key | k.d == 0 || k.d == 3 ensures SameAt(refs, refs'', k) {
      assert SameAt(refs, refs', k) && SameAt(refs', refs'', k);
    }
  }

  lemma KeptSelf(mem: seq<Page>, owner: seq<Owner>)
    requires |mem| == |owner|
    ensures Kept(mem, owner, mem, owner)
  {
    forall p | 0 <= p < |mem| ensures KeptPage(mem, owner, mem, owner, p) { }
  }

  lemma SameMapsSelf(refs: Refs)
    ensures SameMaps(refs, refs)
  {
    forall k: Key | k.d == 0 || k.d == 3 ensures SameAt(refs, refs, k) { }
  }

  /** A free page p became a table behind table page pg. */
  lemma KeptLink(mem: seq<Page>, owner: seq<Owner>, mem': seq<Page>, owner': seq<Owner>, pg: nat, p: nat)
    requires |mem| == |owner| == |mem'| == |owner'| && pg < |mem| && p < |mem| && owner[p] == Free
      && owner[pg].Own? && owner[pg].k.d < 3
    requires forall q :: 0 <= q < |mem| && q != pg && q != p ==> mem'[q] == mem[q]
    requires forall q :: 0 <= q < |mem| && q != p ==> owner'[q] == owner[q]
    requires owner'[p].Own? && owner'[p].k.d < 3
    ensures Kept(mem, owner, mem', owner')
  {
    forall q | 0 <= q < |mem| ensures KeptPage(mem, owner, mem', owner', q) { }
  }

  lemma KeptRoot(mem: seq<Page>, owner: seq<Owner>, mem': seq<Page>, owner': seq<Owner>, p: nat)
    requires |mem| == |owner| == |mem'| == |owner'| && p < |mem| && owner[p] == Free && owner'[p].Own?
      && owner'[p].k.d == 0
    requires forall q :: 0 <= q < |mem| && q != p ==> mem'[q] == mem[q] && owner'[q] == owner[q]
    ensures Kept(mem, owner, mem', owner')
  {
    forall q | 0 <= q < |mem| ensures KeptPage(mem, owner, mem', owner', q) { }
  }

  lemma SameMapsAdd(refs: Refs, c: Key, p: nat)
    requires c !in refs && (c.d == 1 || c.d == 2)
    ensures SameMaps(refs, Add(refs, c, p, PTE_V))
  {
    var refs' := Add(refs, c, p, PTE_V);
    forall k: Key | k.d == 0 || k.d == 3 ensures SameAt(refs, refs', k) { }
  }

  /** The lowest table on the way to a mapped page is there. */
  lemma PathThere(refs: Refs, owner: seq<Owner>, t: nat, vpn: nat)
    requires TreeOk(refs, owner) && vpn < MAXPAGE && Node(t, vpn, 3) in refs
    ensures Node(t, vpn, 2) in refs && Node(t, vpn, 1) in refs
  {
    NodeStep(t, vpn, 2);
    NodeStep(t, vpn, 1);
    assert NodeOk(refs, owner, Node(t, vpn, 3)) && NodeOk(refs, owner, Node(t, vpn, 2));
  }

  // ---- what the tables cost ----

  predicate IsTable(k: Key) { k.d == 1 || k.d == 2 }

  /** The lower tables on the way to virtual page a. */
  function Way(t: nat, a: nat): set<Key> { {Node(t, a, 1), Node(t, a, 2)} }

  /** The tables on the way down to depth d. */
  function WayTo(t: nat, a: nat, d: nat): set<Key> {
    if d == 0 then {} else if d == 1 then {Node(t, a, 1)} else Way(t, a)
  }

  /** The lower tables on the ways to n virtual pages from a on. */
  function Ways(t: nat, a: nat, n: nat): set<Key> {
    if n == 0 then {} else Ways(t, a, n - 1) + Way(t, a + n - 1)
  }

  /** The lower tables of all page tables. */
  ghost function Tables(refs: Refs): set<Key> { set k | k in refs && IsTable(k) }

  lemma TablesAdd(refs: Refs, c: Key, p: nat, flags: nat)
    ensures Tables(Add(refs, c, p, flags)) == if IsTable(c) then Tables(refs) + {c} else Tables(refs)
  {
  }

  lemma OneWay(t: nat, a: nat)
    ensures Ways(t, a, 1) == Way(t, a)
  {
    assert Ways(t, a, 0) == {};
  }

  lemma {:induction false} WaysMore(t: nat, a: nat, n: nat, m: nat)
    requires n <= m
    ensures Ways(t, a, n) <= Ways(t, a, m)
  {
    if n < m { WaysMore(t, a, n, m - 1); }
  }

  /** What is too much for the first n pages is too much for m. */
  lemma ShortMore(ts: set<Key>, free: nat, t: nat, a: nat, n: nat, m: nat, leaves: nat, more: nat)
    requires Short(ts, free, Ways(t, a, n), leaves) && n <= m && leaves <= more
    ensures Short(ts, free, Ways(t, a, m), more)
  {
    assert Lacks(ts, free, Ways(t, a, n), leaves);
    WaysMore(t, a, n, m);
    MissingMore(ts, Ways(t, a, n), Ways(t, a, m));
  }

  lemma WayNext(t: nat, vpn: nat, d: nat)
    requires d < 2
    ensures WayTo(t, vpn, d) + {Node(t, vpn, d + 1)} == WayTo(t, vpn, d + 1)
  {
  }

  /** One page more, with the leaves it takes from the free list, or too few pages for it. */
  lemma PayNext(ts0: set<Key>, n0: nat, ts: set<Key>, n: nat, ts': set<Key>, n': nat, t: nat, a: nat, i: nat,
                leaves: nat,
                leaf: nat, ok: bool)
    requires Spent(ts0, n0, ts, n, Ways(t, a, i), leaves)
    requires if ok then Spent(ts, n, ts', n', Way(t, a + i), leaf) else Short(ts, n, Way(t, a + i), leaf)
    ensures if ok then Spent(ts0, n0, ts', n', Ways(t, a, i + 1), leaves + leaf)
            else Short(ts0, n0, Ways(t, a, i + 1), leaves + leaf)
  {
    assert Ways(t, a, i + 1) == Ways(t, a, i) + Way(t, a + i);
    if ok {
      SpentThen(ts0, n0, ts, n, ts', n', Ways(t, a, i), leaves, Way(t, a + i), leaf);
    } else {
      ShortThen(ts0, n0, ts, n, Ways(t, a, i), leaves, Way(t, a + i), leaf);
    }
  }

  /** One table more on the way. */
  lemma WalkOn(ts0: set<Key>, n0: nat, ts: set<Key>, n: nat, ts': set<Key>, n': nat, t: nat, vpn: nat, d: nat)
    requires d < 2 && Spent(ts0, n0, ts, n, WayTo(t, vpn, d), 0) && Spent(ts, n, ts', n', {Node(t, vpn, d + 1)}, 0)
    ensures Spent(ts0, n0, ts', n', WayTo(t, vpn, d + 1), 0)
  {
    WayNext(t, vpn, d);
    SpentThen(ts0, n0, ts, n, ts', n', WayTo(t, vpn, d), 0, {Node(t, vpn, d + 1)}, 0);
  }

  /** No page left for the next table on the way. */
  lemma WalkStuck(ts0: set<Key>, n0: nat, ts: set<Key>, t: nat, vpn: nat, d: nat)
    requires d < 2 && Spent(ts0, n0, ts, 0, WayTo(t, vpn, d), 0) && Node(t, vpn, d + 1) !in ts
    ensures Short(ts0, n0, Way(t, vpn), 0)
  {
    var c := {Node(t, vpn, d + 1)};
    assert c - ts == c;
    ShortThen(ts0, n0, ts, 0, WayTo(t, vpn, d), 0, c, 0);
    assert Lacks(ts0, n0, WayTo(t, vpn, d) + c, 0);
    assert WayTo(t, vpn, d) + c <= Way(t, vpn);
    MissingMore(ts0, WayTo(t, vpn, d) + c, Way(t, vpn));
  }

  lemma TableThere(refs: Refs, owner: seq<Owner>, t: nat, vpn: nat)
    requires TreeOk(refs, owner) && vpn < MAXPAGE && Node(t, vpn, 2) in refs
    ensures Node(t, vpn, 1) in refs
  {
    NodeStep(t, vpn, 1);
    assert NodeOk(refs, owner, Node(t, vpn, 2));
  }

  // ---- mapping and unmapping ----

  /** perm | PTE_V */
  function WithV(perm: nat): nat { if HasV(perm) then perm else perm + 1 }

  /** Page p can be mapped with these flags: it is held and has data, or it belongs to others and is not for users. */
  ghost predicate Mappable(mem: seq<Page>, owner: seq<Owner>, p: nat, flags: nat) {
    && p < |mem| == |owner| && HasV(flags) && flags < 1024 && HasRWX(flags)
    && ((owner[p] == Held && mem[p].Bytes? && |mem[p].data| == PGSIZE) || (owner[p] == Reserved && !HasU(flags)))
  }

  /** The owners after page p, if held, was mapped at leaf k. */
  ghost function Given(owner: seq<Owner>, p: nat, k: Key): seq<Owner> {
    if p < |owner| && owner[p] == Held then owner[p := Own(k)] else owner
  }

  /** The flat maps with one more entry. */
  ghost predicate OneMore(refs: Refs, refs': Refs, k: Key, ent: Ent) {
    && k in refs' && refs'[k] == ent
    && (forall l: Key :: (l.d == 0 || l.d == 3) && l != k ==> SameAt(refs, refs', l))
    && (forall l :: l in refs ==> l in refs')
  }

  /** The flat maps with one entry less. */
  ghost predicate OneLess(refs: Refs, refs': Refs, k: Key) {
    && k !in refs'
    && (forall l: Key :: (l.d == 0 || l.d == 3) && l != k ==> SameAt(refs, refs', l))
    && (forall l :: l in refs && l != k ==> l in refs')
  }

  lemma OneMoreAfter(refs: Refs, refs': Refs, k: Key, p: nat, flags: nat)
    requires SameMaps(refs, refs') && k !in refs' && k.d == 3
    ensures OneMore(refs, Add(refs', k, p, flags), k, Ent(p, flags))
  {
    var refs'' := Add(refs', k, p, flags);
    forall l: Key | (l.d == 0 || l.d == 3) && l != k ensures SameAt(refs, refs'', l) { assert SameAt(refs, refs', l); }
  }

  lemma KeptGiven(mem: seq<Page>, owner: seq<Owner>, mem': seq<Page>, owner': seq<Owner>, mem'': seq<Page>, k: Key,
                  p: nat, pg: nat)
    requires Kept(mem, owner, mem', owner') && p < |mem| && pg < |mem| && owner[p] == owner'[p]
      && (owner[p] == Held || owner[p] == Reserved) && k.d == 3
    requires |mem''| == |mem'| && owner'[pg].Own? && owner'[pg].k.d < 3 && forall q :: 0 <= q < |mem'| && q != pg ==>
      mem''[q] == mem'[q]
    ensures Kept(mem, Given(owner, p, k), mem'', Given(owner', p, k))
  {
    forall q | 0 <= q < |mem| ensures KeptPage(mem, Given(owner, p, k), mem'', Given(owner', p, k), q) {
      assert KeptPage(mem, owner, mem', owner', q);
    }
  }

  predicate InRange(k: Key, t: nat, a: nat, n: nat) { k.d == 3 && k.t == t && a <= k.idx < a + n }

  ghost predicate RangeAt(refs: Refs, refs': Refs, t: nat, a: nat, n: nat, p: nat, flags: nat, l: Key) {
    if InRange(l, t, a, n) then l in refs' && refs'[l] == Ent(p + (l.idx - a), flags) else SameAt(refs, refs', l)
  }

  /** The flat maps with virtual pages a .. a + n - 1 of table t mapped to the pages from p on. */
  ghost predicate RangeMore(refs: Refs, refs': Refs, t: nat, a: nat, n: nat, p: nat, flags: nat) {
    && (forall l: Key :: l.d == 0 || l.d == 3 ==> RangeAt(refs, refs', t, a, n, p, flags, l))
    && (forall l :: l in refs ==> l in refs')
  }

  ghost function GivenRange(owner: seq<Owner>, t: nat, a: nat, n: nat, p: nat): (r: seq<Owner>)
    ensures |r| == |owner| && forall q :: 0 <= q < |owner| && !(p <= q < p + n) ==> r[q] == owner[q]
  {
    if n == 0 then owner else Given(GivenRange(owner, t, a, n - 1, p), p + n - 1, Key(t, 3, a + n - 1))
  }

  lemma RangeNone(refs: Refs, t: nat, a: nat, p: nat, flags: nat)
    ensures RangeMore(refs, refs, t, a, 0, p, flags)
  {
    forall l: Key | l.d == 0 || l.d == 3 ensures RangeAt(refs, refs, t, a, 0, p, flags, l) { }
  }

  lemma RangeStep(refs: Refs, refs': Refs, refs'': Refs, t: nat, a: nat, n: nat, p: nat, flags: nat)
    requires RangeMore(refs, refs', t, a, n, p, flags) && OneMore(refs', refs'', Key(t, 3, a + n), Ent(p + n, flags))
    ensures RangeMore(refs, refs'', t, a, n + 1, p, flags)
  {
    forall l: Key | l.d == 0 || l.d == 3 ensures RangeAt(refs, refs'', t, a, n + 1, p, flags, l) {
      assert RangeAt(refs, refs', t, a, n, p, flags, l);
      if l != Key(t, 3, a + n) { assert SameAt(refs', refs'', l); }
    }
  }

  lemma RangeSame(refs: Refs, refs': Refs, refs'': Refs, t: nat, a: nat, n: nat, p: nat, flags: nat)
    requires RangeMore(refs, refs', t, a, n, p, flags) && SameMaps(refs', refs'')
    ensures RangeMore(refs, refs'', t, a, n, p, flags)
  {
    forall l: Key | l.d == 0 || l.d == 3 ensures RangeAt(refs, refs'', t, a, n, p, flags, l) {
      assert RangeAt(refs, refs', t, a, n, p, flags, l) && SameAt(refs', refs'', l);
    }
  }

  lemma KeptMore(mem: seq<Page>, owner: seq<Owner>, mem': seq<Page>, owner': seq<Owner>, mem'': seq<Page>,
                 owner'': seq<Owner>, p: nat, k: Key)
    requires Kept(mem, owner, mem', owner') && p < |mem| && owner[p] == owner'[p] && k.d == 3
      && Kept(mem', Given(owner', p, k), mem'', owner'')
    ensures Kept(mem, Given(owner, p, k), mem'', owner'')
  {
    forall q | 0 <= q < |mem| ensures KeptPage(mem, Given(owner, p, k), mem'', owner'', q) {
      assert KeptPage(mem, owner, mem', owner', q) && KeptPage(mem', Given(owner', p, k), mem'', owner'', q);
    }
  }

  /** Virtual page a + i of table t is unmapped and page p + i can be mapped there. */
  ghost predicate CanMap(mem: seq<Page>, owner: seq<Owner>, refs: Refs, t: nat, a: nat, p: nat, flags: nat, i: nat) {
    Key(t, 3, a + i) !in refs && Mappable(mem, owner, p + i, flags)
  }

  // ---- unmapping ----

  /** The owners after page p was unmapped from leaf k: kept by others, held, or freed. */
  ghost function Taken(owner: seq<Owner>, p: nat, k: Key, doFree: bool): seq<Owner> {
    if p < |owner| && owner[p] == Own(k) then owner[p := if doFree then Free else Held] else owner
  }

  lemma OneLessAfter(refs: Refs, k: Key)
    ensures OneLess(refs, refs - {k}, k)
  {
    var refs' := refs - {k};
    forall l: Key | (l.d == 0 || l.d == 3) && l != k ensures SameAt(refs, refs', l) { }
  }

  ghost predicate LessAt(refs: Refs, refs': Refs, t: nat, a: nat, n: nat, l: Key) {
    if InRange(l, t, a, n) then l !in refs' else SameAt(refs, refs', l)
  }

  /** The flat maps without virtual pages a .. a + n - 1 of table t. */
  ghost predicate RangeLess(refs: Refs, refs': Refs, t: nat, a: nat, n: nat) {
    && (forall l: Key :: l.d == 0 || l.d == 3 ==> LessAt(refs, refs', t, a, n, l))
    && (forall l :: l in refs && !InRange(l, t, a, n) ==> l in refs')
  }

  lemma LessNone(refs: Refs, t: nat, a: nat)
    ensures RangeLess(refs, refs, t, a, 0)
  {
    forall l: Key | l.d == 0 || l.d == 3 ensures LessAt(refs, refs, t, a, 0, l) { }
  }

  lemma LessStep(refs: Refs, refs': Refs, refs'': Refs, t: nat, a: nat, n: nat)
    requires RangeLess(refs, refs', t, a, n) && OneLess(refs', refs'', Key(t, 3, a + n))
    ensures RangeLess(refs, refs'', t, a, n + 1)
  {
    forall l: Key | l.d == 0 || l.d == 3 ensures LessAt(refs, refs'', t, a, n + 1, l) {
      assert LessAt(refs, refs', t, a, n, l);
      if l != Key(t, 3, a + n) { assert SameAt(refs', refs'', l); }
    }
  }

  /** What unmapping virtual pages a .. a + n - 1 of table t does to page p. */
  ghost predicate GonePage(mem: seq<Page>, owner: seq<Owner>, mem': seq<Page>, owner': seq<Owner>, t: nat, a: nat,
                           n: nat, doFree: bool, p: nat)
  {
    && p < |mem| == |owner| == |mem'| == |owner'|
    && if owner[p].Own? && InRange(owner[p].k, t, a, n) then owner'[p] == (if doFree then Free else Held) &&
      (!doFree ==> mem'[p] == mem[p])
       else owner'[p] == owner[p] && (owner[p] == Held || owner[p] == Reserved || Data(owner[p]) ==> mem'[p] == mem[p])
  }

  ghost predicate Gone(mem: seq<Page>, owner: seq<Owner>, mem': seq<Page>, owner': seq<Owner>, t: nat, a: nat, n: nat,
                       doFree: bool)
  {
    |mem'| == |mem| == |owner| == |owner'| && forall p :: 0 <= p < |mem| ==>
      GonePage(mem, owner, mem', owner', t, a, n, doFree, p)
  }

  lemma GoneNone(mem: seq<Page>, owner: seq<Owner>, t: nat, a: nat, doFree: bool)
    requires |mem| == |owner|
    ensures Gone(mem, owner, mem, owner, t, a, 0, doFree)
  {
    forall p | 0 <= p < |mem| ensures GonePage(mem, owner, mem, owner, t, a, 0, doFree, p) { }
  }

  /** Page q named by leaf k is unmapped, next after the first n, through table page pg. */
  lemma GoneStep(mem: seq<Page>, owner: seq<Owner>, mem': seq<Page>, owner': seq<Owner>, mem'': seq<Page>,
                 owner'': seq<Owner>, refs': Refs,
                 t: nat, a: nat, n: nat, doFree: bool, q: nat, pg: nat)
    requires Gone(mem, owner, mem', owner', t, a, n, doFree) && TreeOk(refs', owner') && pg < |mem|
      && owner'[pg].Own? && owner'[pg].k.d < 3
    requires Key(t, 3, a + n) in refs' && refs'[Key(t, 3, a + n)].ppn == q
    requires owner'' == Taken(owner', q, Key(t, 3, a + n), doFree) && |mem''| == |mem'|
    requires forall p :: 0 <= p < |mem| && p != pg && !(doFree && p == q && owner'[p] == Own(Key(t, 3, a + n))) ==>
      mem''[p] == mem'[p]
    ensures Gone(mem, owner, mem'', owner'', t, a, n + 1, doFree)
  {
    var m := n + 1;
    forall p | 0 <= p < |mem| ensures GonePage(mem, owner, mem'', owner'', t, a, m, doFree, p) {
      assert GonePage(mem, owner, mem', owner', t, a, n, doFree, p) && PageOk(refs', owner', p);
    }
  }

  /** Virtual page a + i of table t is mapped, to a page of its own if it is to be freed. */
  ghost predicate Unmappable(refs: Refs, owner: seq<Owner>, t: nat, a: nat, i: nat, doFree: bool) {
    && Key(t, 3, a + i) in refs
    && (doFree ==> refs[Key(t, 3, a + i)].ppn < |owner| && owner[refs[Key(t, 3, a + i)].ppn] == Own(Key(t, 3, a + i)))
  }

  // ---- growing a table by new pages ----

  /** Page p, if it was not free or a table, is as before; and it is new only as a leaf a .. a + n - 1 of table t. */
  ghost predicate RestPage(mem: seq<Page>, owner: seq<Owner>, mem': seq<Page>, owner': seq<Owner>, t: nat, a: nat,
                           n: nat, p: nat)
  {
    && p < |mem| == |owner| == |mem'| == |owner'|
    && (owner[p] == Held || owner[p] == Reserved || Data(owner[p]) ==> owner'[p] == owner[p] && mem'[p] == mem[p])
    && (owner'[p] == Held || owner'[p] == Reserved ==> owner[p] == owner'[p])
    && (Data(owner'[p]) ==> owner[p] == owner'[p] || InRange(owner'[p].k, t, a, n))
  }

  ghost predicate Rest(mem: seq<Page>, owner: seq<Owner>, mem': seq<Page>, owner': seq<Owner>, t: nat, a: nat, n: nat) {
    |mem'| == |mem| == |owner| == |owner'| && forall p :: 0 <= p < |mem| ==>
      RestPage(mem, owner, mem', owner', t, a, n, p)
  }

  /** Leaf l of the grown table: one of the new ones, with its flags and contents, or as before. */
  ghost predicate NewAt(mem: seq<Page>, owner: seq<Owner>, refs: Refs, refs0: Refs, t: nat, a: nat,
                        want: seq<(nat, Page)>, l: Key)
  {
    if InRange(l, t, a, |want|) then
      && l in refs && refs[l].flags == want[l.idx - a].0 && refs[l].ppn < |mem| == |owner|
      && owner[refs[l].ppn] == Own(l) && mem[refs[l].ppn] == want[l.idx - a].1
    else SameAt(refs0, refs, l)
  }

  ghost predicate News(mem: seq<Page>, owner: seq<Owner>, refs: Refs, refs0: Refs, t: nat, a: nat,
                       want: seq<(nat, Page)>)
  {
    forall l: Key :: l.d == 0 || l.d == 3 ==> NewAt(mem, owner, refs, refs0, t, a, want, l)
  }

  lemma RestNone(mem: seq<Page>, owner: seq<Owner>, t: nat, a: nat)
    requires |mem| == |owner|
    ensures Rest(mem, owner, mem, owner, t, a, 0)
  {
    forall p | 0 <= p < |mem| ensures RestPage(mem, owner, mem, owner, t, a, 0, p) { }
  }

  lemma NewsNone(mem: seq<Page>, owner: seq<Owner>, refs: Refs, t: nat, a: nat)
    ensures News(mem, owner, refs, refs, t, a, [])
  {
    forall l: Key | l.d == 0 || l.d == 3 ensures NewAt(mem, owner, refs, refs, t, a, [], l) { }
  }

  lemma RestKept(mem: seq<Page>, owner: seq<Owner>, mem': seq<Page>, owner': seq<Owner>, mem'': seq<Page>,
                 owner'': seq<Owner>, t: nat, a: nat, n: nat)
    requires Rest(mem, owner, mem', owner', t, a, n) && Kept(mem', owner', mem'', owner'')
    ensures Rest(mem, owner, mem'', owner'', t, a, n)
  {
    forall p | 0 <= p < |mem| ensures RestPage(mem, owner, mem'', owner'', t, a, n, p) {
      assert RestPage(mem, owner, mem', owner', t, a, n, p) && KeptPage(mem', owner', mem'', owner'', p);
    }
  }

  lemma NewsKept(mem: seq<Page>, owner: seq<Owner>, mem': seq<Page>, owner': seq<Owner>, refs: Refs, refs': Refs,
                 refs0: Refs, t: nat, a: nat, want: seq<(nat, Page)>)
    requires News(mem, owner, refs, refs0, t, a, want) && Kept(mem, owner, mem', owner') && SameMaps(refs, refs')
    ensures News(mem', owner', refs', refs0, t, a, want)
  {
    forall l: Key | l.d == 0 || l.d == 3 ensures NewAt(mem', owner', refs', refs0, t, a, want, l) {
      assert NewAt(mem, owner, refs, refs0, t, a, want, l) && SameAt(refs, refs', l);
      if InRange(l, t, a, |want|) { assert KeptPage(mem, owner, mem', owner', refs[l].ppn); }
    }
  }

  /** One more new page: leaf k, page p, contents x. */
  ghost predicate Fresh(mem: seq<Page>, owner: seq<Owner>, mem': seq<Page>, owner': seq<Owner>, refs: Refs,
                        refs': Refs, k: Key, flags: nat, x: Page)
  {
    && k.d == 3 && Rest(mem, owner, mem', owner', k.t, k.idx, 1)
    && k in refs' && refs'[k].flags == flags && refs'[k].ppn < |mem'| == |owner'| && owner'[refs'[k].ppn] == Own(k)
      && mem'[refs'[k].ppn] == x
    && forall l: Key :: (l.d == 0 || l.d == 3) && l != k ==> SameAt(refs, refs', l)
  }

  lemma RestStep(mem: seq<Page>, owner: seq<Owner>, mem': seq<Page>, owner': seq<Owner>, mem'': seq<Page>,
                 owner'': seq<Owner>, t: nat, a: nat, n: nat)
    requires Rest(mem, owner, mem', owner', t, a, n) && Rest(mem', owner', mem'', owner'', t, a + n, 1)
    ensures Rest(mem, owner, mem'', owner'', t, a, n + 1)
  {
    var b, m := a + n, n + 1;
    forall p | 0 <= p < |mem| ensures RestPage(mem, owner, mem'', owner'', t, a, m, p) {
      assert RestPage(mem, owner, mem', owner', t, a, n, p) && RestPage(mem', owner', mem'', owner'', t, b, 1, p);
    }
  }

  lemma NewsStep(mem: seq<Page>, owner: seq<Owner>, mem': seq<Page>, owner': seq<Owner>, refs: Refs, refs': Refs,
                 refs0: Refs,
                 t: nat, a: nat, want: seq<(nat, Page)>, flags: nat, x: Page)
    requires News(mem, owner, refs, refs0, t, a, want)
      && Fresh(mem, owner, mem', owner', refs, refs', Key(t, 3, a + |want|), flags, x)
    ensures News(mem', owner', refs', refs0, t, a, want + [(flags, x)])
  {
    var want', k := want + [(flags, x)], Key(t, 3, a + |want|);
    forall l: Key | l.d == 0 || l.d == 3 ensures NewAt(mem', owner', refs', refs0, t, a, want', l) {
      assert NewAt(mem, owner, refs, refs0, t, a, want, l);
      if l != k {
        assert SameAt(refs, refs', l);
        if InRange(l, t, a, |want|) { assert RestPage(mem, owner, mem', owner', k.t, k.idx, 1, refs[l].ppn); }
      }
    }
  }

  /** A page p was taken from the free list, filled with x and mapped at leaf k. */
  lemma FreshOk(mem: seq<Page>, owner: seq<Owner>, mem1: seq<Page>, owner1: seq<Owner>, mem': seq<Page>,
                owner': seq<Owner>,
                refs: Refs, refs': Refs, k: Key, p: nat, flags: nat, x: Page)
    requires |mem| == |owner| && p < |mem| && owner[p] == Free && k.d == 3 && mem1 == mem[p := x]
      && owner1 == owner[p := Held]
    requires RangeMore(refs, refs', k.t, k.idx, 1, p, flags)
      && Kept(mem1, GivenRange(owner1, k.t, k.idx, 1, p), mem', owner')
    ensures Fresh(mem, owner, mem', owner', refs, refs', k, flags, x)
  {
    assert GivenRange(owner1, k.t, k.idx, 0, p) == owner1;
    var given := GivenRange(owner1, k.t, k.idx, 1, p);
    assert given == owner[p := Own(k)];
    assert RangeAt(refs, refs', k.t, k.idx, 1, p, flags, k);
    forall l: Key | (l.d == 0 || l.d == 3) && l != k ensures SameAt(refs, refs', l) {
      assert RangeAt(refs, refs', k.t, k.idx, 1, p, flags, l);
    }
    assert KeptPage(mem1, given, mem', owner', p);
    forall q | 0 <= q < |mem| ensures RestPage(mem, owner, mem', owner', k.t, k.idx, 1, q) {
      assert KeptPage(mem1, given, mem', owner', q);
    }
  }

  /** A page p was taken from the free list, filled, and given back when it could not be mapped. */
  lemma FreshFails(mem: seq<Page>, owner: seq<Owner>, mem1: seq<Page>, owner1: seq<Owner>, mem2: seq<Page>,
                   owner2: seq<Owner>, x: Page, y: Page, t: nat, a: nat, p: nat)
    requires |mem| == |owner| && p < |mem| && owner[p] == Free && mem1 == mem[p := x] && owner1 == owner[p := Held]
    requires Kept(mem1, GivenRange(owner1, t, a, 0, p), mem2, owner2)
    ensures owner2[p] == Held && Kept(mem, owner, mem2[p := y], owner2[p := Free])
  {
    assert KeptPage(mem1, owner1, mem2, owner2, p);
    var mem', owner' := mem2[p := y], owner2[p := Free];
    forall q | 0 <= q < |mem| ensures KeptPage(mem, owner, mem', owner', q) {
      assert KeptPage(mem1, owner1, mem2, owner2, q);
    }
  }

  lemma RangeNothing(refs: Refs, refs': Refs, t: nat, a: nat, p: nat, flags: nat)
    requires RangeMore(refs, refs', t, a, 0, p, flags)
    ensures SameMaps(refs, refs')
  {
    forall k: Key | k.d == 0 || k.d == 3 ensures SameAt(refs, refs', k) {
      assert RangeAt(refs, refs', t, a, 0, p, flags, k);
    }
  }

  /** PGROUNDUP(x) / PGSIZE */
  function Up(x: nat): nat { (x + PGSIZE - 1) / PGSIZE }

  /** The pages up to Up(x) hold the first x bytes, and no page of them is left out. */
  lemma UpIs(x: nat)
    ensures x <= Up(x) * PGSIZE < x + PGSIZE
    ensures forall a: nat :: a < Up(x) <==> a * PGSIZE < x
  {
  }

  lemma UpReached(x: nat, size: nat)
    requires x <= Up(size) && x * PGSIZE >= size
    ensures x == Up(size)
  {
  }

  ghost predicate SameLeaves(refs: Refs, refs': Refs) {
    forall k: Key :: k.d == 0 || k.d == 3 ==> SameAt(refs, refs', k)
  }

  /** None of the virtual pages a .. a + n - 1 of table t is mapped. */
  ghost predicate Unmapped(refs: Refs, t: nat, a: nat, n: nat) {
    forall k :: k in refs ==> !InRange(k, t, a, n)
  }

  /** Unmapping the new pages, and freeing them, undoes the growth. */
  lemma UndoLeaves(mem: seq<Page>, owner: seq<Owner>, refs0: Refs, refs: Refs, refs': Refs, t: nat, a: nat,
                   want: seq<(nat, Page)>)
    requires News(mem, owner, refs, refs0, t, a, want) && RangeLess(refs, refs', t, a, |want|)
      && Unmapped(refs0, t, a, |want|)
    ensures SameLeaves(refs0, refs')
  {
    forall k: Key | k.d == 0 || k.d == 3 ensures SameAt(refs0, refs', k) {
      assert NewAt(mem, owner, refs, refs0, t, a, want, k) && LessAt(refs, refs', t, a, |want|, k);
    }
  }

  lemma UndoPages(mem0: seq<Page>, owner0: seq<Owner>, refs0: Refs, mem: seq<Page>, owner: seq<Owner>,
                  mem': seq<Page>, owner': seq<Owner>, t: nat, a: nat, n: nat)
    requires Rest(mem0, owner0, mem, owner, t, a, n) && Gone(mem, owner, mem', owner', t, a, n, true)
      && TreeOk(refs0, owner0) && Unmapped(refs0, t, a, n)
    ensures Kept(mem0, owner0, mem', owner')
  {
    forall p | 0 <= p < |mem0| ensures KeptPage(mem0, owner0, mem', owner', p) {
      assert RestPage(mem0, owner0, mem, owner, t, a, n, p) && GonePage(mem, owner, mem', owner', t, a, n, true, p)
        && PageOk(refs0, owner0, p);
    }
  }

  lemma NewsUnmappable(mem: seq<Page>, owner: seq<Owner>, refs: Refs, refs0: Refs, t: nat, a: nat,
                       want: seq<(nat, Page)>)
    requires News(mem, owner, refs, refs0, t, a, want)
    ensures forall i :: 0 <= i < |want| ==> Unmappable(refs, owner, t, a, i, true)
  {
    forall i | 0 <= i < |want| ensures Unmappable(refs, owner, t, a, i, true) {
      assert NewAt(mem, owner, refs, refs0, t, a, want, Key(t, 3, a + i));
    }
  }

  /** Flags and contents of the first n pages of table t. */
  ghost function Copied(mem: seq<Page>, refs: Refs, owner: seq<Owner>, t: nat, n: nat): (want: seq<(nat, Page)>)
    requires |mem| == |owner| && forall i :: 0 <= i < n ==> Unmappable(refs, owner, t, 0, i, true)
    ensures |want| == n
    ensures forall i :: 0 <= i < n ==>
      && Unmappable(refs, owner, t, 0, i, true)
      && want[i] == (refs[Key(t, 3, i)].flags, mem[refs[Key(t, 3, i)].ppn])
  {
    seq(n, i requires 0 <= i < n =>
      assert Unmappable(refs, owner, t, 0, i, true);
      (refs[Key(t, 3, i)].flags, mem[refs[Key(t, 3, i)].ppn]))
  }

  // ---- freeing a table ----

  /** The pages of the nodes in gone are free, and every other page is as before, but for table page pg. */
  ghost predicate CutPage(mem: seq<Page>, owner: seq<Owner>, mem': seq<Page>, owner': seq<Owner>, gone: set<Key>,
                          pg: int, p: nat)
  {
    && p < |mem| == |owner| == |mem'| == |owner'|
    && if owner[p].Own? && owner[p].k in gone then owner'[p] == Free
      else owner'[p] == owner[p] && (p == pg || mem'[p] == mem[p])
  }

  ghost predicate Cut(mem: seq<Page>, owner: seq<Owner>, mem': seq<Page>, owner': seq<Owner>, gone: set<Key>, pg: int) {
    |mem'| == |mem| == |owner| == |owner'| && forall p :: 0 <= p < |mem| ==>
      CutPage(mem, owner, mem', owner', gone, pg, p)
  }

  lemma CutNone(mem: seq<Page>, owner: seq<Owner>, pg: int)
    requires |mem| == |owner|
    ensures Cut(mem, owner, mem, owner, {}, pg)
  {
    forall p | 0 <= p < |mem| ensures CutPage(mem, owner, mem, owner, {}, pg, p) { }
  }

  lemma CutThen(mem: seq<Page>, owner: seq<Owner>, mem': seq<Page>, owner': seq<Owner>, mem'': seq<Page>,
                owner'': seq<Owner>, gone: set<Key>, more: set<Key>, pg: int)
    requires Cut(mem, owner, mem', owner', gone, pg) && Cut(mem', owner', mem'', owner'', more, pg)
    ensures Cut(mem, owner, mem'', owner'', gone + more, pg)
  {
    var all := gone + more;
    forall p | 0 <= p < |mem| ensures CutPage(mem, owner, mem'', owner'', all, pg, p) {
      assert CutPage(mem, owner, mem', owner', gone, pg, p) && CutPage(mem', owner', mem'', owner'', more, pg, p);
    }
  }

  /** The last cut: table page pg itself is freed. */
  lemma CutLast(mem: seq<Page>, owner: seq<Owner>, mem': seq<Page>, owner': seq<Owner>, gone: set<Key>, pg: nat,
                k: Key, x: Page)
    requires Cut(mem, owner, mem', owner', gone, pg) && pg < |mem| && owner[pg] == Own(k) && k !in gone
    requires forall p :: 0 <= p < |mem| && p != pg ==> owner[p] != Own(k)
    ensures Cut(mem, owner, mem'[pg := x], owner'[pg := Free], gone + {k}, -1)
  {
    var mem'', owner'', all := mem'[pg := x], owner'[pg := Free], gone + {k};
    forall p | 0 <= p < |mem| ensures CutPage(mem, owner, mem'', owner'', all, -1, p) {
      assert CutPage(mem, owner, mem', owner', gone, pg, p);
    }
  }

  ghost predicate NoLeaf(refs: Refs, t: nat) { forall k :: k in refs && k.t == t ==> k.d < 3 }

  /** The entry of a node that has left the table is cleared. */
  lemma CloseHole(lo: nat, hi: nat, mem: seq<Page>, head: nat, free: seq<nat>, refs: Refs, owner: seq<Owner>, k: Key,
                  e: nat)
    requires OkBut(lo, hi, mem, head, free, refs, owner, Child(k, e)) && k in refs && k.d < 3 && e < 512
      && Child(k, e) !in refs
    ensures refs[k].ppn < |mem| && mem[refs[k].ppn].Table? && |mem[refs[k].ppn].ptes| == 512
    ensures Ok(lo, hi, SetPte(mem, refs[k].ppn, e, 0), head, free, refs, owner)
  {
    var pg := refs[k].ppn;
    var other := if e == 0 then 1 else 0;
    assert Child(k, other) != Child(k, e);
    assert EntryOk(mem, refs, k, other) && NodeOk(refs, owner, k);
    var mem' := SetPte(mem, pg, e, 0);
    forall l, f | l in refs && l.d < 3 && 0 <= f < 512 ensures EntryOk(mem', refs, l, f) {
      assert NodeOk(refs, owner, l);
      if Child(l, f) == Child(k, e) {
        ChildInjective(k, e, l, f);
      } else {
        assert EntryOk(mem, refs, l, f);
      }
    }
    LinkRest(lo, hi, mem, mem', head, free, owner, owner, pg, pg);
  }

  /** A table without children leaves its parent; the parent's entry is not cleared yet. */
  lemma DropTable(lo: nat, hi: nat, mem: seq<Page>, head: nat, free: seq<nat>, refs: Refs, owner: seq<Owner>, k: Key)
    requires Ok(lo, hi, mem, head, free, refs, owner) && k in refs && k.d < 3 && Childless(refs, k)
    ensures refs[k].ppn < |owner| && owner[refs[k].ppn] == Own(k)
    ensures OkBut(lo, hi, mem, head, free, refs - {k}, owner[refs[k].ppn := Held], k)
  {
    assert NodeOk(refs, owner, k);
    RemoveOk(refs, owner, k);
    var refs', owner' := refs - {k}, owner[refs[k].ppn := Held];
    forall l, f | l in refs' && l.d < 3 && 0 <= f < 512 && Child(l, f) != k ensures EntryOk(mem, refs', l, f) {
      assert EntryOk(mem, refs, l, f);
    }
    forall i | 0 <= i < |free| ensures RunOk(mem, owner', free, i) { assert RunOk(mem, owner, free, i); }
    forall q | 0 <= q < |owner'| ensures DataOk(lo, hi, mem, owner', q) { assert DataOk(lo, hi, mem, owner, q); }
  }

  /** The entry of a lower table, as freewalk tests it. */
  lemma TablePte(ppn: nat, pte: nat)
    requires pte == MkPte(ppn, PTE_V)
    ensures pte % 2 == 1 && pte / 2 % 8 == 0 && Ppn(pte) == ppn
  {
    PteParts(ppn, PTE_V);
    var x := 64 * ppn;
    assert pte == 16 * x + 1;
    assert pte / 2 == 8 * x;
    assert (8 * x) % 8 == 0;
  }

  // ---- user memory ----

  predicate UserPage(refs: Refs, t: nat, a: nat) {
    a < MAXPAGE && Key(t, 3, a) in refs && HasU(refs[Key(t, 3, a)].flags)
  }

  predicate UserAt(refs: Refs, t: nat, va: nat) { UserPage(refs, t, va / PGSIZE) }

  /** The byte at virtual address va of table t; 0 where the user has no page. */
  ghost function UserByte(mem: seq<Page>, refs: Refs, t: nat, va: nat): Byte {
    if UserPage(refs, t, va / PGSIZE) then
      var p := refs[Key(t, 3, va / PGSIZE)].ppn;
      if p < |mem| && mem[p].Bytes? && |mem[p].data| == PGSIZE then mem[p].data[va % PGSIZE] else 0
    else 0
  }

  ghost function UserBytes(mem: seq<Page>, refs: Refs, t: nat, va: nat, n: nat): (s: seq<Byte>)
    ensures |s| == n && forall i :: 0 <= i < n ==> s[i] == UserByte(mem, refs, t, va + i)
  {
    seq<Byte>(n, i requires 0 <= i < n => UserByte(mem, refs, t, va + i))
  }

  /** w is at va of table t, and every other user byte is as before. */
  ghost predicate StoredByte(mem: seq<Page>, mem': seq<Page>, refs: Refs, t: nat, va: nat, w: seq<Byte>, u: nat,
                             x: nat)
  {
    UserByte(mem', refs, u, x) == if u == t && va <= x < va + |w| then w[x - va] else UserByte(mem, refs, u, x)
  }

  ghost predicate Stored(mem: seq<Page>, mem': seq<Page>, refs: Refs, t: nat, va: nat, w: seq<Byte>) {
    forall u: nat, x: nat :: StoredByte(mem, mem', refs, t, va, w, u, x)
  }

  lemma StoredNone(mem: seq<Page>, refs: Refs, t: nat, va: nat)
    ensures Stored(mem, mem, refs, t, va, [])
  {
    forall u: nat, x: nat ensures StoredByte(mem, mem, refs, t, va, [], u, x) { }
  }

  lemma StoredThen(mem: seq<Page>, mem': seq<Page>, mem'': seq<Page>, refs: Refs, t: nat, va: nat, w: seq<Byte>,
                   w': seq<Byte>)
    requires Stored(mem, mem', refs, t, va, w) && Stored(mem', mem'', refs, t, va + |w|, w')
    ensures Stored(mem, mem'', refs, t, va, w + w')
  {
    forall u: nat, x: nat ensures StoredByte(mem, mem'', refs, t, va, w + w', u, x) {
      assert StoredByte(mem, mem', refs, t, va, w, u, x) && StoredByte(mem', mem'', refs, t, va + |w|, w', u, x);
    }
  }

  /** What copyout stored is what copyin reads. */
  lemma StoredReads(mem: seq<Page>, mem': seq<Page>, refs: Refs, t: nat, va: nat, w: seq<Byte>)
    requires Stored(mem, mem', refs, t, va, w)
    ensures UserBytes(mem', refs, t, va, |w|) == w
  {
    forall i | 0 <= i < |w| ensures UserByte(mem', refs, t, va + i) == w[i] {
      assert StoredByte(mem, mem', refs, t, va, w, t, va + i);
    }
  }

  /** A user page is a data page that no other leaf names. */
  lemma UserOwn(lo: nat, hi: nat, mem: seq<Page>, head: nat, free: seq<nat>, refs: Refs, owner: seq<Owner>, t: nat,
                a: nat)
    requires Ok(lo, hi, mem, head, free, refs, owner) && UserPage(refs, t, a)
    ensures
      var p := refs[Key(t, 3, a)].ppn;
      0 < p < |mem| && owner[p] == Own(Key(t, 3, a)) && mem[p].Bytes? && |mem[p].data| == PGSIZE
  {
    assert NodeOk(refs, owner, Key(t, 3, a)) && DataOk(lo, hi, mem, owner, refs[Key(t, 3, a)].ppn);
  }

  // ---- what growing a table means to its user ----

  /** What the user of table u has at x is as before. */
  ghost predicate SameUser(mem: seq<Page>, refs: Refs, mem': seq<Page>, refs': Refs, u: nat, x: nat) {
    (UserAt(refs', u, x) <==> UserAt(refs, u, x)) && UserByte(mem', refs', u, x) == UserByte(mem, refs, u, x)
  }

  /** Nobody's memory has changed, but for the addresses from .. to - 1 of table t. */
  ghost predicate SameBut(mem: seq<Page>, refs: Refs, mem': seq<Page>, refs': Refs, t: nat, from: nat, to: nat) {
    forall u: nat, x: nat :: u != t || x < from || x >= to ==> SameUser(mem, refs, mem', refs', u, x)
  }

  /** Address x of table t holds a zero that its user can read, write and execute: bits R, W, X and U of the entry. */
  ghost predicate NewByte(mem: seq<Page>, refs: Refs, t: nat, x: nat) {
    && UserAt(refs, t, x) && UserByte(mem, refs, t, x) == 0
    && var f := refs[Key(t, 3, x / PGSIZE)].flags;
       f / 2 % 2 == 1 && f / 4 % 2 == 1 && f / 8 % 2 == 1 && f / 16 % 2 == 1
  }

  ghost predicate NewRange(mem: seq<Page>, refs: Refs, t: nat, from: nat, to: nat) {
    forall x: nat :: from <= x < to ==> NewByte(mem, refs, t, x)
  }

  /** Address x of table t' is what it was of table t, with the same permissions. */
  ghost predicate CopiedByte(mem: seq<Page>, refs: Refs, t: nat, mem': seq<Page>, refs': Refs, t': nat, x: nat) {
    && (UserAt(refs', t', x) <==> UserAt(refs, t, x)) && UserByte(mem', refs', t', x) == UserByte(mem, refs, t, x)
    && Key(t, 3, x / PGSIZE) in refs && Key(t', 3, x / PGSIZE) in refs'
    && refs'[Key(t', 3, x / PGSIZE)].flags == refs[Key(t, 3, x / PGSIZE)].flags
  }

  ghost predicate CopiedRange(mem: seq<Page>, refs: Refs, t: nat, mem': seq<Page>, refs': Refs, t': nat, to: nat) {
    forall x: nat :: x < to ==> CopiedByte(mem, refs, t, mem', refs', t', x)
  }

  lemma PageOf(x: nat, a: nat, b: nat)
    ensures a * PGSIZE <= x < b * PGSIZE <==> a <= x / PGSIZE < b
  {
  }

  /** An address of a page that is not new. */
  lemma OldAddress(lo: nat, hi: nat, mem: seq<Page>, head: nat, free: seq<nat>, refs: Refs, owner: seq<Owner>,
                   mem': seq<Page>, owner': seq<Owner>, refs': Refs, u: nat, x: nat)
    requires Ok(lo, hi, mem, head, free, refs, owner) && SameAt(refs, refs', Key(u, 3, x / PGSIZE))
    requires forall p :: 0 <= p < |mem| && Data(owner[p]) ==> p < |mem'| && mem'[p] == mem[p]
    ensures SameUser(mem, refs, mem', refs', u, x)
  {
    if UserPage(refs, u, x / PGSIZE) { UserOwn(lo, hi, mem, head, free, refs, owner, u, x / PGSIZE); }
  }

  lemma GrownSame(lo: nat, hi: nat, mem: seq<Page>, head: nat, free: seq<nat>, refs: Refs, owner: seq<Owner>,
                  mem': seq<Page>, owner': seq<Owner>, refs': Refs, t: nat, a: nat, want: seq<(nat, Page)>)
    requires Ok(lo, hi, mem, head, free, refs, owner)
    requires News(mem', owner', refs', refs, t, a, want) && Rest(mem, owner, mem', owner', t, a, |want|)
    ensures SameBut(mem, refs, mem', refs', t, a * PGSIZE, (a + |want|) * PGSIZE)
  {
    forall p | 0 <= p < |mem| && Data(owner[p]) ensures p < |mem'| && mem'[p] == mem[p] {
      assert RestPage(mem, owner, mem', owner', t, a, |want|, p);
    }
    forall u: nat, x: nat | u != t || x < a * PGSIZE || x >= (a + |want|) * PGSIZE
      ensures SameUser(mem, refs, mem', refs', u, x)
    {
      PageOf(x, a, a + |want|);
      assert NewAt(mem', owner', refs', refs, t, a, want, Key(u, 3, x / PGSIZE));
      OldAddress(lo, hi, mem, head, free, refs, owner, mem', owner', refs', u, x);
    }
  }

  lemma UndoneSame(lo: nat, hi: nat, mem: seq<Page>, head: nat, free: seq<nat>, refs: Refs, owner: seq<Owner>,
                   mem': seq<Page>, owner': seq<Owner>, refs': Refs)
    requires Ok(lo, hi, mem, head, free, refs, owner) && SameLeaves(refs, refs') && Kept(mem, owner, mem', owner')
    ensures SameBut(mem, refs, mem', refs', 0, 0, 0)
  {
    forall p | 0 <= p < |mem| && Data(owner[p]) ensures p < |mem'| && mem'[p] == mem[p] {
      assert KeptPage(mem, owner, mem', owner', p);
    }
    forall u: nat, x: nat ensures SameUser(mem, refs, mem', refs', u, x) {
      assert SameAt(refs, refs', Key(u, 3, x / PGSIZE));
      OldAddress(lo, hi, mem, head, free, refs, owner, mem', owner', refs', u, x);
    }
  }

  /** Pages of zeros with all permissions. */
  lemma GrownNew(mem: seq<Page>, owner: seq<Owner>, refs: Refs, refs0: Refs, t: nat, a: nat, want: seq<(nat, Page)>)
    requires News(mem, owner, refs, refs0, t, a, want) && a + |want| <= MAXPAGE
    requires forall i :: 0 <= i < |want| ==>
      want[i].0 == 31 && want[i].1.Bytes? && |want[i].1.data| == PGSIZE && forall j :: 0 <= j < PGSIZE ==>
        want[i].1.data[j] == 0
    ensures NewRange(mem, refs, t, a * PGSIZE, (a + |want|) * PGSIZE)
  {
    forall x: nat | a * PGSIZE <= x < (a + |want|) * PGSIZE ensures NewByte(mem, refs, t, x) {
      PageOf(x, a, a + |want|);
      assert NewAt(mem, owner, refs, refs0, t, a, want, Key(t, 3, x / PGSIZE));
      assert want[x / PGSIZE - a].1.data[x % PGSIZE] == 0;
    }
  }

  lemma GrownCopy(mem0: seq<Page>, owner0: seq<Owner>, refs0: Refs, told: nat, mem: seq<Page>, owner: seq<Owner>,
                  refs: Refs, tnew: nat, n: nat)
    requires |mem0| == |owner0| && n <= MAXPAGE && forall i :: 0 <= i < n ==>
      Unmappable(refs0, owner0, told, 0, i, true)
    requires News(mem, owner, refs, refs0, tnew, 0, Copied(mem0, refs0, owner0, told, n))
    ensures CopiedRange(mem0, refs0, told, mem, refs, tnew, n * PGSIZE)
  {
    var want := Copied(mem0, refs0, owner0, told, n);
    forall x: nat | x < n * PGSIZE ensures CopiedByte(mem0, refs0, told, mem, refs, tnew, x) {
      PageOf(x, 0, n);
      assert NewAt(mem, owner, refs, refs0, tnew, 0, want, Key(tnew, 3, x / PGSIZE));
      assert Unmappable(refs0, owner0, told, 0, x / PGSIZE, true);
    }
  }

  function Put(data: seq<Byte>, o: nat, w: seq<Byte>): seq<Byte>
    requires o + |w| <= |data|
  {
    data[..o] + w + data[o + |w|..]
  }

  lemma DataWrite(lo: nat, hi: nat, mem: seq<Page>, head: nat, free: seq<nat>, refs: Refs, owner: seq<Owner>, p: nat,
                  d: seq<Byte>)
    requires Ok(lo, hi, mem, head, free, refs, owner) && p < |mem| && Data(owner[p]) && |d| == PGSIZE
    ensures Ok(lo, hi, mem[p := Bytes(d)], head, free, refs, owner)
  {
    NoTable(mem, refs, owner, p, Bytes(d));
    var mem' := mem[p := Bytes(d)];
    forall i | 0 <= i < |free| ensures RunOk(mem', owner, free, i) { assert RunOk(mem, owner, free, i); }
    forall q | 0 <= q < |owner| ensures DataOk(lo, hi, mem', owner, q) { assert DataOk(lo, hi, mem, owner, q); }
  }

  lemma PageStored(lo: nat, hi: nat, mem: seq<Page>, head: nat, free: seq<nat>, refs: Refs, owner: seq<Owner>, t: nat,
                   va: nat, w: seq<Byte>)
    requires Ok(lo, hi, mem, head, free, refs, owner) && UserPage(refs, t, va / PGSIZE) && va % PGSIZE + |w| <= PGSIZE
    ensures
      var p := refs[Key(t, 3, va / PGSIZE)].ppn;
      p < |mem| && mem[p].Bytes? && |mem[p].data| == PGSIZE
        && Stored(mem, mem[p := Bytes(Put(mem[p].data, va % PGSIZE, w))], refs, t, va, w)
  {
    var p := refs[Key(t, 3, va / PGSIZE)].ppn;
    UserOwn(lo, hi, mem, head, free, refs, owner, t, va / PGSIZE);
    var mem' := mem[p := Bytes(Put(mem[p].data, va % PGSIZE, w))];
    forall u: nat, x: nat ensures StoredByte(mem, mem', refs, t, va, w, u, x) {
      if UserPage(refs, u, x / PGSIZE) {
        UserOwn(lo, hi, mem, head, free, refs, owner, u, x / PGSIZE);
        InPage(va, x, |w|);
      } else if u == t { InPage(va, x, |w|); }
    }
  }

  lemma InPage(va: nat, x: nat, n: nat)
    requires va % PGSIZE + n <= PGSIZE
    ensures va <= x < va + n ==> x / PGSIZE == va / PGSIZE && x % PGSIZE == va % PGSIZE + (x - va)
    ensures x / PGSIZE == va / PGSIZE && va % PGSIZE <= x % PGSIZE < va % PGSIZE + n ==>
      va <= x < va + n && x - va == x % PGSIZE - va % PGSIZE
  {
  }

  class Memory {
    const lo: nat            // the first page after the kernel
    const hi: nat            // PHYSTOP
    var mem: seq<Page>
    var freelist: nat
    ghost var free: seq<nat>
    ghost var refs: Refs
    ghost var owner: seq<Owner>

    /** Ok of the fields. The quantifier has one instance; it keeps Ok folded in the methods that only pass it on. */
    ghost predicate Valid()
      reads this
    {
      forall head: nat :: head == freelist ==> Ok(lo, hi, mem, head, free, refs, owner)
    }

    /** Memory at boot, before kinit: the pages from lo to hi - 1 are for the allocator. */
    constructor (mem0: seq<Page>, lo: nat, hi: nat)
      requires 0 < lo <= hi <= |mem0|
      ensures this.lo == lo && this.hi == hi && Valid() && refs == map[] && free == [] && |owner| == |mem0|
      ensures forall p :: 0 <= p < |owner| ==> owner[p] == if lo <= p < hi then Held else Reserved
    {
      this.lo, this.hi, mem, freelist := lo, hi, mem0, 0;
      free, refs := [], map[];
      owner := seq(|mem0|, p => if lo <= p < hi then Held else Reserved);
    }

    /** kinit: freerange gives every page from lo to hi - 1 to the free list; false would be the panic of kfree. */
    method Kinit() returns (ok: bool)
      requires Valid() && refs == map[] && free == [] && hi <= |owner|
      requires forall p :: 0 <= p < |owner| ==> owner[p] == if lo <= p < hi then Held else Reserved
      modifies this`mem, this`freelist, this`free, this`owner
      ensures ok && Valid() && |owner| == |old(owner)| && forall p :: 0 <= p < |owner| ==>
        owner[p] == if lo <= p < hi then Free else Reserved
    {
      var p := lo;
      ok := true;
      while p + 1 <= hi
        invariant ok && Valid() && |owner| == |old(owner)| && (lo <= hi ==> lo <= p <= hi)
        invariant forall q :: 0 <= q < |owner| ==> owner[q] == if lo <= q < hi then (if q < p then Free else Held)
          else Reserved
      {
        ok := Kfree(p);
        p := p + 1;
      }
    }

    /** kalloc: page 0 stands for the null pointer. */
    method Kalloc() returns (p: nat)
      requires Valid()
      modifies this`mem, this`freelist, this`free, this`owner
      ensures Valid()
      ensures if old(free) == [] then p == 0 && mem == old(mem) && owner == old(owner) && free == []
              else
                && p == old(free)[0] && lo <= p < |old(mem)| == |old(owner)| && old(owner)[p] == Free
                && owner == old(owner)[p := Held] && mem == old(mem)[p := Bytes(seq(PGSIZE, _ => 5))]
                && free == old(free)[1..]
    {
      assert Ok(lo, hi, mem, freelist, free, refs, owner);
      p := freelist;
      if p != 0 {
        if free != [] { TakeOk(lo, hi, mem, freelist, free, refs, owner, Bytes(seq(PGSIZE, _ => 5))); }
        freelist := mem[p].next;
        mem := mem[p := Bytes(seq(PGSIZE, _ => 5))];
        owner, free := owner[p := Held], free[1..];
      } else if free != [] {
        TakeOk(lo, hi, mem, freelist, free, refs, owner, Bytes(seq(PGSIZE, _ => 5)));
      }
    }

    /** kfree of a page that is allocated and in no table; false would be the panic. */
    method KfreeBut(p: nat, ghost hole: Key) returns (ok: bool)
      requires OkBut(lo, hi, mem, freelist, free, refs, owner, hole) && p < |owner| && owner[p] == Held
      modifies this`mem, this`freelist, this`free, this`owner
      ensures ok && OkBut(lo, hi, mem, freelist, free, refs, owner, hole) && p < |old(mem)|
        && owner == old(owner)[p := Free]
      ensures mem == old(mem)[p := Run(old(freelist))] && free == [p] + old(free)
    {
      GiveOk(lo, hi, mem, freelist, free, refs, owner, p, hole);
      if p < lo || p >= hi {
        return false;
      }
      mem := mem[p := Run(freelist)];
      freelist := p;
      owner, free := owner[p := Free], [p] + free;
      ok := true;
    }

    method Kfree(p: nat) returns (ok: bool)
      requires Valid() && p < |owner| && owner[p] == Held
      modifies this`mem, this`freelist, this`free, this`owner
      ensures ok && Valid() && p < |old(mem)| && owner == old(owner)[p := Free]
        && mem == old(mem)[p := Run(old(freelist))] && free == [p] + old(free)
    {
      assert Ok(lo, hi, mem, freelist, free, refs, owner);
      NoHole(lo, hi, mem, freelist, free, refs, owner, Key(0, 0, 0));
      ok := KfreeBut(p, Key(0, 0, 0));
      NoHole(lo, hi, mem, freelist, free, refs, owner, Key(0, 0, 0));
    }

    /** The held page p becomes an empty table behind entry e of node k. */
    method Attach(ghost k: Key, page: nat, e: nat, p: nat)
      requires Valid() && k in refs && k.d < 2 && refs[k].ppn == page && e < 512 && Child(k, e) !in refs
      requires p < |owner| && owner[p] == Held
      modifies this`mem, this`refs, this`owner
      ensures Valid() && refs == Add(old(refs), Child(k, e), p, PTE_V) && owner == old(owner)[p := Own(Child(k, e))]
      ensures |mem| == |old(mem)| && forall q :: 0 <= q < |mem| && q != page && q != p ==> mem[q] == old(mem)[q]
    {
      assert Ok(lo, hi, mem, freelist, free, refs, owner);
      HeldWrite(lo, hi, mem, freelist, free, refs, owner, p, ZeroTable());
      mem := mem[p := ZeroTable()];
      assert EntryOk(mem, refs, k, e);
      LinkTable(lo, hi, mem, freelist, free, refs, owner, k, e, p);
      mem := SetPte(mem, page, e, MkPte(p, PTE_V));
      refs, owner := Add(refs, Child(k, e), p, PTE_V), owner[p := Own(Child(k, e))];
    }

    /** One turn of walk's loop, from node k at page through entry e. */
    method Descend(ghost k: Key, page: nat, e: nat, alloc: bool) returns (ok: bool, next: nat)
      requires Valid() && k in refs && k.d < 2 && refs[k].ppn == page && e < 512
      modifies this
      ensures Valid() && SameMaps(old(refs), refs) && Kept(old(mem), old(owner), mem, owner)
      ensures ok ==> Child(k, e) in refs && refs[Child(k, e)].ppn == next
      ensures !alloc || Child(k, e) in old(refs) ==>
        mem == old(mem) && refs == old(refs) && owner == old(owner) && free == old(free) && freelist == old(freelist)
      ensures ok <==> Child(k, e) in old(refs) || (alloc && old(free) != [])
      ensures !ok ==> free == old(free) && refs == old(refs)
      ensures ok ==> Spent(Tables(old(refs)), |old(free)|, Tables(refs), |free|, {Child(k, e)}, 0)
    {
      assert Ok(lo, hi, mem, freelist, free, refs, owner);
      assert EntryOk(mem, refs, k, e);
      SameMapsSelf(refs);
      KeptSelf(mem, owner);
      var pte := mem[page].ptes[e];
      ghost var c := Child(k, e);
      if c in refs {
        assert NodeOk(refs, owner, c);
        PteParts(refs[c].ppn, refs[c].flags);
      }
      if pte % 2 == 1 {
        SpentThere(Tables(refs), |free|, c);
        return true, Ppn(pte);
      }
      if !alloc {
        return false, 0;
      }
      var p := Kalloc();
      if p == 0 {
        return false, 0;
      }
      assert NodeOk(refs, old(owner), k);
      Attach(k, page, e, p);
      KeptLink(old(mem), old(owner), mem, owner, page, p);
      SameMapsAdd(old(refs), c, p);
      TablesAdd(old(refs), c, p, PTE_V);
      SpentAdd(Tables(old(refs)), |old(free)|, c);
      return true, p;
    }

    /** uvmcreate: a new table without any mapping, or 0 if there is no page left. */
    method Uvmcreate() returns (t: nat)
      requires Valid()
      modifies this
      ensures Valid()
      ensures if old(free) == [] then t == 0 && mem == old(mem) && refs == old(refs) && owner == old(owner)
              else
                && t != 0 && Key(t, 0, 0) !in old(refs) && refs == Add(old(refs), Key(t, 0, 0), t, PTE_V)
                && t < |old(owner)| && old(owner)[t] == Free && owner == old(owner)[t := Own(Key(t, 0, 0))]
                && (forall k :: k in refs && k.t == t ==> k.d == 0) && Kept(old(mem), old(owner), mem, owner)
    {
      assert Ok(lo, hi, mem, freelist, free, refs, owner);
      t := Kalloc();
      if t != 0 {
        assert Ok(lo, hi, mem, freelist, free, refs, owner);
        HeldWrite(lo, hi, mem, freelist, free, refs, owner, t, ZeroTable());
        mem := mem[t := ZeroTable()];
        LinkRoot(lo, hi, mem, freelist, free, refs, owner, t);
        refs, owner := Add(refs, Key(t, 0, 0), t, PTE_V), owner[t := Own(Key(t, 0, 0))];
        KeptRoot(old(mem), old(owner), mem, owner, t);
      }
    }

    /** What walk and the operations above it keep since an earlier state. */
    ghost predicate Steady(mem0: seq<Page>, owner0: seq<Owner>, refs0: Refs)
      reads this
    {
      SameMaps(refs0, refs) && Kept(mem0, owner0, mem, owner)
    }

    /** The tables for n pages from a on, and the leaves, have been paid for since refs0 and n0 free pages. */
    ghost predicate Paid(refs0: Refs, n0: nat, t: nat, a: nat, n: nat, leaves: nat)
      reads this
    {
      Spent(Tables(refs0), n0, Tables(refs), |free|, Ways(t, a, n), leaves)
    }

    /** walk is at depth d on the way to vpn. */
    ghost predicate Walked(mem0: seq<Page>, owner0: seq<Owner>, refs0: Refs, n0: nat, t: nat, vpn: nat, d: nat,
                           page: nat)
      reads this
    {
      && d <= 2 && Node(t, vpn, d) in refs && refs[Node(t, vpn, d)].ppn == page
      && Steady(mem0, owner0, refs0) && Spent(Tables(refs0), n0, Tables(refs), |free|, WayTo(t, vpn, d), 0)
    }

    /** The quantifier has one instance; it keeps Walked folded in walk's loop. */
    ghost predicate Walking(mem0: seq<Page>, owner0: seq<Owner>, refs0: Refs, n0: nat, t: nat, vpn: nat, d: nat,
                            page: nat)
      reads this
    {
      forall e: nat :: e == d ==> Walked(mem0, owner0, refs0, n0, t, vpn, e, page)
    }

    lemma WalkStart(t: nat, vpn: nat)
      requires Valid() && Key(t, 0, 0) in refs
      ensures Walking(mem, owner, refs, |free|, t, vpn, 0, t)
    {
      assert Ok(lo, hi, mem, freelist, free, refs, owner);
      assert NodeOk(refs, owner, Key(t, 0, 0));
      SameMapsSelf(refs);
      KeptSelf(mem, owner);
      SpentNone(Tables(refs), |free|);
    }

    /** A table or leaf is there only with the tables above it. */
    lemma Above(t: nat, vpn: nat)
      requires Valid() && vpn < MAXPAGE
      ensures Node(t, vpn, 3) in refs ==> Node(t, vpn, 2) in refs
      ensures Node(t, vpn, 2) in refs ==> Node(t, vpn, 1) in refs
    {
      assert Ok(lo, hi, mem, freelist, free, refs, owner);
      if Node(t, vpn, 3) in refs { PathThere(refs, owner, t, vpn); }
      if Node(t, vpn, 2) in refs { TableThere(refs, owner, t, vpn); }
    }

    /** One turn of walk's loop at this depth. */
    method WalkDown(t: nat, vpn: nat, d: nat, page: nat, alloc: bool, ghost mem0: seq<Page>, ghost owner0: seq<Owner>,
                    ghost refs0: Refs, ghost n0: nat)
      returns (ok: bool, next: nat)
      requires Valid() && d < 2 && vpn < MAXPAGE && Walking(mem0, owner0, refs0, n0, t, vpn, d, page)
      modifies this
      ensures Valid() && Steady(mem0, owner0, refs0)
      ensures ok ==> Walking(mem0, owner0, refs0, n0, t, vpn, d + 1, next)
      ensures !ok && alloc ==> free == [] && Short(Tables(refs0), n0, Way(t, vpn), 0)
      ensures !alloc ==>
        mem == old(mem) && refs == old(refs) && owner == old(owner) && free == old(free) && freelist == old(freelist)
      ensures !alloc ==> (ok <==> Node(t, vpn, d + 1) in refs)
    {
      assert Walked(mem0, owner0, refs0, n0, t, vpn, d, page);
      NodeStep(t, vpn, d);
      ok, next := Descend(Node(t, vpn, d), page, Px(2 - d, vpn), alloc);
      KeptThen(mem0, owner0, old(mem), old(owner), mem, owner);
      SameMapsThen(refs0, old(refs), refs);
      if ok {
        WalkOn(Tables(refs0), n0, Tables(old(refs)), |old(free)|, Tables(refs), |free|, t, vpn, d);
      } else if alloc {
        WalkStuck(Tables(refs0), n0, Tables(refs), t, vpn, d);
      }
    }

    /** walk: the lowest table page on the way to vpn; the entry is number Px(0, vpn) there. */
    method Walk(t: nat, vpn: nat, alloc: bool) returns (ok: bool, page: nat)
      requires Valid() && Key(t, 0, 0) in refs && vpn < MAXPAGE
      modifies this
      ensures Valid() && Steady(old(mem), old(owner), old(refs))
      ensures ok ==> Node(t, vpn, 2) in refs && refs[Node(t, vpn, 2)].ppn == page
      ensures !alloc ==>
        mem == old(mem) && refs == old(refs) && owner == old(owner) && free == old(free) && freelist == old(freelist)
      ensures !ok ==> if alloc then free == [] else Node(t, vpn, 3) !in refs
      ensures ok <==>
        if alloc then !Short(Tables(old(refs)), |old(free)|, Way(t, vpn), 0) else Node(t, vpn, 2) in old(refs)
      ensures ok ==> Spent(Tables(old(refs)), |old(free)|, Tables(refs), |free|, Way(t, vpn), 0)
    {
      WalkStart(t, vpn);
      Above(t, vpn);
      page := t;
      var level := 2;
      while level > 0
        invariant 0 <= level <= 2 && Valid()
        invariant Walking(old(mem), old(owner), old(refs), |old(free)|, t, vpn, 2 - level, page)
        invariant !alloc ==>
          mem == old(mem) && refs == old(refs) && owner == old(owner) && free == old(free)
          && freelist == old(freelist)
      {
        ok, page := WalkDown(t, vpn, 2 - level, page, alloc, old(mem), old(owner), old(refs), |old(free)|);
        if !ok {
          return;
        }
        level := level - 1;
      }
      assert Walked(old(mem), old(owner), old(refs), |old(free)|, t, vpn, 2, page);
      Enough(Tables(old(refs)), |old(free)|, Tables(refs), |free|, Way(t, vpn), 0);
      ok := true;
    }

    /** *pte = PA2PTE(pa) | flags, for an entry that is empty. */
    method SetLeaf(ghost k: Key, e: nat, page: nat, p: nat, flags: nat)
      requires Valid() && k in refs && k.d == 2 && refs[k].ppn == page && e < 512 && Child(k, e) !in refs
        && Mappable(mem, owner, p, flags)
      modifies this`mem, this`refs, this`owner
      ensures Valid() && refs == Add(old(refs), Child(k, e), p, flags) && owner == Given(old(owner), p, Child(k, e))
      ensures page < |old(mem)| == |mem| == |old(owner)| && old(owner)[page] == Own(k) && forall q ::
        0 <= q < |mem| && q != page ==> mem[q] == old(mem)[q]
    {
      assert Ok(lo, hi, mem, freelist, free, refs, owner);
      assert EntryOk(mem, refs, k, e) && NodeOk(refs, owner, k);
      LinkLeaf(lo, hi, mem, freelist, free, refs, owner, k, e, p, flags);
      mem := SetPte(mem, page, e, MkPte(p, flags));
      refs, owner := Add(refs, Child(k, e), p, flags), Given(owner, p, Child(k, e));
    }

    /** One turn of mappages' loop, for a page that is not mapped yet. */
    method MapOne(t: nat, a: nat, p: nat, perm: nat) returns (ok: bool)
      requires Valid() && Key(t, 0, 0) in refs && a < MAXPAGE && Node(t, a, 3) !in refs
        && Mappable(mem, owner, p, WithV(perm))
      modifies this
      ensures Valid()
      ensures !ok ==> Steady(old(mem), old(owner), old(refs)) && free == []
      ensures !ok ==> Short(Tables(old(refs)), |old(free)|, Way(t, a), 0)
      ensures ok ==>
        && OneMore(old(refs), refs, Node(t, a, 3), Ent(p, WithV(perm)))
        && Kept(old(mem), Given(old(owner), p, Node(t, a, 3)), mem, owner)
        && Spent(Tables(old(refs)), |old(free)|, Tables(refs), |free|, Way(t, a), 0)
    {
      var page;
      ok, page := Walk(t, a, true);
      if ok {
        ghost var k, c := Node(t, a, 2), Node(t, a, 3);
        NodeStep(t, a, 2);
        assert SameAt(old(refs), refs, c) && KeptPage(old(mem), old(owner), mem, owner, p);
        ghost var mem1, owner1, refs1 := mem, owner, refs;
        SetLeaf(k, Px(0, a), page, p, WithV(perm));
        OneMoreAfter(old(refs), refs1, c, p, WithV(perm));
        KeptGiven(old(mem), old(owner), mem1, owner1, mem, c, p, page);
        TablesAdd(refs1, c, p, WithV(perm));
      }
    }

    /** The first n pages of a mappages call are mapped. */
    ghost predicate MappedSince(mem0: seq<Page>, owner0: seq<Owner>, refs0: Refs, t: nat, a: nat, n: nat, p: nat,
                                flags: nat)
      reads this
    {
      RangeMore(refs0, refs, t, a, n, p, flags) && Kept(mem0, GivenRange(owner0, t, a, n, p), mem, owner)
    }

    /** One turn of mappages' loop; the result says whether walk found memory. */
    method MapNext(t: nat, a: nat, i: nat, p: nat, perm: nat, ghost mem0: seq<Page>, ghost owner0: seq<Owner>,
                   ghost refs0: Refs, ghost n0: nat) returns (ok: bool)
      requires Valid() && a + i < MAXPAGE && MappedSince(mem0, owner0, refs0, t, a, i, p, WithV(perm))
      requires Key(t, 0, 0) in refs0 && CanMap(mem0, owner0, refs0, t, a, p, WithV(perm), i)
      requires Paid(refs0, n0, t, a, i, 0)
      modifies this
      ensures Valid() && MappedSince(mem0, owner0, refs0, t, a, if ok then i + 1 else i, p, WithV(perm))
        && (!ok ==> free == [])
      ensures if ok then Paid(refs0, n0, t, a, i + 1, 0) else Short(Tables(refs0), n0, Ways(t, a, i + 1), 0)
    {
      ghost var mem1, owner1, refs1, c := mem, owner, refs, Key(t, 3, a + i);
      assert Node(t, a + i, 3) == c;
      assert RangeAt(refs0, refs, t, a, i, p, WithV(perm), c)
        && RangeAt(refs0, refs, t, a, i, p, WithV(perm), Key(t, 0, 0));
      assert KeptPage(mem0, GivenRange(owner0, t, a, i, p), mem, owner, p + i);
      ghost var n1 := |free|;
      ok := MapOne(t, a + i, p + i, perm);
      PayNext(Tables(refs0), n0, Tables(refs1), n1, Tables(refs), |free|, t, a, i, 0, 0, ok);
      if ok {
        RangeStep(refs0, refs1, refs, t, a, i, p, WithV(perm));
        KeptMore(mem0, GivenRange(owner0, t, a, i, p), mem1, owner1, mem, owner, p + i, c);
      } else {
        RangeSame(refs0, refs1, refs, t, a, i, p, WithV(perm));
        KeptThen(mem0, GivenRange(owner0, t, a, i, p), mem1, owner1, mem, owner);
      }
    }

    /** The loop of mappages from page a to page last. */
    method MapLoop(t: nat, a: nat, last: nat, p: nat, perm: nat) returns (ok: bool, ghost done: nat)
      requires Valid() && Key(t, 0, 0) in refs && a <= last < MAXPAGE
      requires forall i :: 0 <= i <= last - a ==> CanMap(mem, owner, refs, t, a, p, WithV(perm), i)
      modifies this
      ensures Valid() && MappedSince(old(mem), old(owner), old(refs), t, a, done, p, WithV(perm))
      ensures if ok then done == last - a + 1 else done <= last - a && free == []
      ensures ok <==> !Short(Tables(old(refs)), |old(free)|, Ways(t, a, last - a + 1), 0)
      ensures ok ==> Paid(old(refs), |old(free)|, t, a, last - a + 1, 0)
    {
      var i := 0;
      RangeNone(refs, t, a, p, WithV(perm));
      assert CanMap(mem, owner, refs, t, a, p, WithV(perm), 0);
      KeptSelf(mem, owner);
      SpentNone(Tables(refs), |free|);
      while true
        invariant a + i <= last && Valid() && MappedSince(old(mem), old(owner), old(refs), t, a, i, p, WithV(perm))
        invariant Paid(old(refs), |old(free)|, t, a, i, 0)
        decreases last - a - i
      {
        assert CanMap(old(mem), old(owner), old(refs), t, a, p, WithV(perm), i);
        ok := MapNext(t, a, i, p, perm, old(mem), old(owner), old(refs), |old(free)|);
        done := if ok then i + 1 else i;
        if !ok {
          ShortMore(Tables(old(refs)), |old(free)|, t, a, i + 1, last - a + 1, 0, 0);
          return;
        }
        if a + i == last {
          Enough(Tables(old(refs)), |old(free)|, Tables(refs), |free|, Ways(t, a, i + 1), 0);
          return;
        }
        i := i + 1;
      }
    }

    /** mappages, for pages that are not mapped yet; on failure done pages are mapped and memory is exhausted. */
    method Mappages(t: nat, va: nat, size: nat, p: nat, perm: nat) returns (ok: bool, ghost done: nat)
      requires Valid() && Key(t, 0, 0) in refs && size > 0 && (va + size - 1) / PGSIZE < MAXPAGE
      requires forall i :: 0 <= i <= (va + size - 1) / PGSIZE - va / PGSIZE ==>
        CanMap(mem, owner, refs, t, va / PGSIZE, p, WithV(perm), i)
      modifies this
      ensures Valid() && done <= (va + size - 1) / PGSIZE - va / PGSIZE + 1
      ensures MappedSince(old(mem), old(owner), old(refs), t, va / PGSIZE, done, p, WithV(perm))
      ensures if ok then done == (va + size - 1) / PGSIZE - va / PGSIZE + 1
        else done <= (va + size - 1) / PGSIZE - va / PGSIZE && free == []
      ensures
        var n := (va + size - 1) / PGSIZE - va / PGSIZE + 1;
        && (ok <==> !Short(Tables(old(refs)), |old(free)|, Ways(t, va / PGSIZE, n), 0))
        && (ok ==> Paid(old(refs), |old(free)|, t, va / PGSIZE, n, 0))
    {
      ok, done := MapLoop(t, va / PGSIZE, (va + size - 1) / PGSIZE, p, perm);
    }

    /** *pte = 0, for the entry of a mapped page; false would be one of the panics. */
    method ClearLeaf(ghost k: Key, e: nat, page: nat) returns (ok: bool, pte: nat)
      requires Valid() && k in refs && k.d == 2 && refs[k].ppn == page && e < 512 && Child(k, e) in refs
      modifies this`mem, this`refs, this`owner
      ensures ok && Valid() && TreeOk(old(refs), old(owner)) && refs == old(refs) - {Child(k, e)}
        && old(refs)[Child(k, e)].ppn < |old(owner)|
      ensures owner == Released(old(refs), old(owner), Child(k, e)) && Ppn(pte) == old(refs)[Child(k, e)].ppn
      ensures page < |old(mem)| == |mem| == |old(owner)| && old(owner)[page] == Own(k) && forall q ::
        0 <= q < |mem| && q != page ==> mem[q] == old(mem)[q]
    {
      assert Ok(lo, hi, mem, freelist, free, refs, owner);
      assert EntryOk(mem, refs, k, e) && NodeOk(refs, owner, k) && NodeOk(refs, owner, Child(k, e));
      pte := mem[page].ptes[e];
      LeafPte(refs[Child(k, e)].ppn, refs[Child(k, e)].flags, pte);
      ok := pte % 2 == 1 && Flags(pte) != PTE_V;
      if ok {
        UnlinkLeaf(lo, hi, mem, freelist, free, refs, owner, k, e);
        mem := SetPte(mem, page, e, 0);
        refs, owner := refs - {Child(k, e)}, Released(refs, owner, Child(k, e));
      }
    }

    /**
     One turn of uvmunmap's loop, for a mapped page: *pte = 0, and kfree if asked to. The two
     write to different pages.
     */
    method UnmapOne(t: nat, a: nat, doFree: bool) returns (ok: bool, ghost q: nat, ghost pg: nat)
      requires Valid() && Key(t, 0, 0) in refs && a < MAXPAGE && Node(t, a, 3) in refs
      requires doFree ==> refs[Node(t, a, 3)].ppn < |owner| && owner[refs[Node(t, a, 3)].ppn] == Own(Node(t, a, 3))
      modifies this
      ensures ok && Valid() && OneLess(old(refs), refs, Node(t, a, 3))
      ensures
        && q == old(refs)[Node(t, a, 3)].ppn && owner == Taken(old(owner), q, Node(t, a, 3), doFree)
          && |mem| == |old(mem)| == |old(owner)|
        && pg < |mem| && old(owner)[pg].Own? && old(owner)[pg].k.d < 3 && TreeOk(old(refs), old(owner))
        && forall p :: 0 <= p < |mem| && p != pg && !(doFree && p == q && old(owner)[p] == Own(Node(t, a, 3))) ==>
          mem[p] == old(mem)[p]
    {
      var page;
      ok, page := WalkMapped(t, a);
      ghost var c := Node(t, a, 3);
      NodeStep(t, a, 2);
      pg, q := page, refs[c].ppn;
      OneLessAfter(refs, c);
      var pte;
      ok, pte := ClearLeaf(Node(t, a, 2), Px(0, a), page);
      if ok && doFree {
        ok := Kfree(Ppn(pte));
      }
    }

    /** walk without alloc, to a page that is mapped. */
    method WalkMapped(t: nat, a: nat) returns (ok: bool, page: nat)
      requires Valid() && Key(t, 0, 0) in refs && a < MAXPAGE && Node(t, a, 3) in refs
      modifies this
      ensures ok && Node(t, a, 2) in refs && refs[Node(t, a, 2)].ppn == page
      ensures mem == old(mem) && refs == old(refs) && owner == old(owner) && free == old(free)
        && freelist == old(freelist)
    {
      ok, page := Walk(t, a, false);
    }

    /** The first n pages of an uvmunmap call are unmapped. */
    ghost predicate UnmappedSince(mem0: seq<Page>, owner0: seq<Owner>, refs0: Refs, t: nat, a: nat, n: nat,
                                  doFree: bool)
      reads this
    {
      RangeLess(refs0, refs, t, a, n) && Gone(mem0, owner0, mem, owner, t, a, n, doFree)
    }

    method UnmapNext(t: nat, a: nat, i: nat, doFree: bool, ghost mem0: seq<Page>, ghost owner0: seq<Owner>,
                     ghost refs0: Refs) returns (ok: bool)
      requires Valid() && a + i < MAXPAGE && UnmappedSince(mem0, owner0, refs0, t, a, i, doFree)
      requires Key(t, 0, 0) in refs0 && Unmappable(refs0, owner0, t, a, i, doFree)
      modifies this
      ensures ok && Valid() && UnmappedSince(mem0, owner0, refs0, t, a, i + 1, doFree)
    {
      ghost var mem1, owner1, refs1, c := mem, owner, refs, Key(t, 3, a + i);
      assert Node(t, a + i, 3) == c;
      assert LessAt(refs0, refs, t, a, i, c) && LessAt(refs0, refs, t, a, i, Key(t, 0, 0));
      if doFree { assert GonePage(mem0, owner0, mem, owner, t, a, i, doFree, refs[c].ppn); }
      ghost var q, pg;
      ok, q, pg := UnmapOne(t, a + i, doFree);
      LessStep(refs0, refs1, refs, t, a, i);
      GoneStep(mem0, owner0, mem1, owner1, mem, owner, refs1, t, a, i, doFree, q, pg);
    }

    /** uvmunmap of n mapped pages; false would be one of its panics. */
    method Uvmunmap(t: nat, a: nat, n: nat, doFree: bool) returns (ok: bool)
      requires Valid() && Key(t, 0, 0) in refs && a + n <= MAXPAGE
      requires forall i :: 0 <= i < n ==> Unmappable(refs, owner, t, a, i, doFree)
      modifies this
      ensures ok && Valid() && UnmappedSince(old(mem), old(owner), old(refs), t, a, n, doFree)
    {
      var i := 0;
      LessNone(refs, t, a);
      assert Ok(lo, hi, mem, freelist, free, refs, owner);
      GoneNone(mem, owner, t, a, doFree);
      while i < n
        invariant i <= n && Valid() && UnmappedSince(old(mem), old(owner), old(refs), t, a, i, doFree)
      {
        assert Unmappable(old(refs), old(owner), t, a, i, doFree);
        ok := UnmapNext(t, a, i, doFree, old(mem), old(owner), old(refs));
        i := i + 1;
      }
      ok := true;
    }

    /** What uvmalloc and uvmcopy do for one page: kalloc, fill with x, mappages, and kfree if that fails. */
    method FreshPage(t: nat, a: nat, x: Page, perm: nat) returns (ok: bool)
      requires Valid() && Key(t, 0, 0) in refs && a < MAXPAGE && Key(t, 3, a) !in refs
      requires x.Bytes? && |x.data| == PGSIZE && WithV(perm) < 1024 && HasRWX(WithV(perm))
      modifies this
      ensures Valid()
      ensures !ok ==> Steady(old(mem), old(owner), old(refs)) && Short(Tables(old(refs)), |old(free)|, Way(t, a), 1)
      ensures ok ==> Fresh(old(mem), old(owner), mem, owner, old(refs), refs, Key(t, 3, a), WithV(perm), x)
      ensures ok ==> Spent(Tables(old(refs)), |old(free)|, Tables(refs), |free|, Way(t, a), 1)
    {
      assert Ok(lo, hi, mem, freelist, free, refs, owner);
      var p := Kalloc();
      if p == 0 {
        SameMapsSelf(refs);
        KeptSelf(mem, owner);
        ExtraMissing(Tables(refs), Way(t, a));
        return false;
      }
      ok := FillAndMap(t, a, x, perm, p, old(mem), old(owner));
      ExtraFirst(Tables(old(refs)), |old(free)|, Tables(refs), |free|, Way(t, a), ok);
    }

    /** mappages of one page. */
    method MapPage(t: nat, a: nat, p: nat, perm: nat) returns (ok: bool)
      requires Valid() && Key(t, 0, 0) in refs && a < MAXPAGE && CanMap(mem, owner, refs, t, a, p, WithV(perm), 0)
      modifies this
      ensures Valid() && MappedSince(old(mem), old(owner), old(refs), t, a, if ok then 1 else 0, p, WithV(perm))
      ensures if ok then Spent(Tables(old(refs)), |old(free)|, Tables(refs), |free|, Way(t, a), 0)
              else Short(Tables(old(refs)), |old(free)|, Way(t, a), 0)
    {
      assert (a * PGSIZE + PGSIZE - 1) / PGSIZE == a && a * PGSIZE / PGSIZE == a;
      assert forall i :: 0 <= i <= 0 ==> CanMap(mem, owner, refs, t, a, p, WithV(perm), i);
      OneWay(t, a);
      ghost var done;
      ok, done := Mappages(t, a * PGSIZE, PGSIZE, p, perm);
    }

    method FillAndMap(t: nat, a: nat, x: Page, perm: nat, p: nat, ghost mem0: seq<Page>, ghost owner0: seq<Owner>)
      returns (ok: bool)
      requires Valid() && Key(t, 0, 0) in refs && a < MAXPAGE && Key(t, 3, a) !in refs
      requires x.Bytes? && |x.data| == PGSIZE && WithV(perm) < 1024 && HasRWX(WithV(perm))
      requires p < |mem0| == |owner0| && owner0[p] == Free && owner == owner0[p := Held] && |mem| == |mem0|
        && mem == mem0[p := mem[p]]
      modifies this
      ensures Valid()
      ensures !ok ==> SameMaps(old(refs), refs) && Kept(mem0, owner0, mem, owner)
      ensures ok ==> Fresh(mem0, owner0, mem, owner, old(refs), refs, Key(t, 3, a), WithV(perm), x)
      ensures if ok then Spent(Tables(old(refs)), |old(free)|, Tables(refs), |free|, Way(t, a), 0)
              else Short(Tables(old(refs)), |old(free)|, Way(t, a), 0)
    {
      assert Ok(lo, hi, mem, freelist, free, refs, owner);
      HeldWrite(lo, hi, mem, freelist, free, refs, owner, p, x);
      mem := mem[p := x];
      ghost var mem1, owner1 := mem, owner;
      ok := MapPage(t, a, p, perm);
      if ok {
        FreshOk(mem0, owner0, mem1, owner1, mem, owner, old(refs), refs, Key(t, 3, a), p, WithV(perm), x);
      } else {
        RangeNothing(old(refs), refs, t, a, p, WithV(perm));
        FreshFails(mem0, owner0, mem1, owner1, mem, owner, x, Run(freelist), t, a, p);
        var freed := Kfree(p);
      }
    }

    /** Table t has grown since an earlier state by the pages that want lists, from virtual page a on. */
    ghost predicate GrownSince(mem0: seq<Page>, owner0: seq<Owner>, refs0: Refs, t: nat, a: nat, want: seq<(nat, Page)>)
      reads this
    {
      News(mem, owner, refs, refs0, t, a, want) && Rest(mem0, owner0, mem, owner, t, a, |want|)
    }

    /** And its pages and tables have been paid for, from n0 free pages. */
    ghost predicate GrownPaid(mem0: seq<Page>, owner0: seq<Owner>, refs0: Refs, n0: nat, t: nat, a: nat,
                              want: seq<(nat, Page)>, n: nat)
      reads this
    {
      GrownSince(mem0, owner0, refs0, t, a, want) && Paid(refs0, n0, t, a, n, n)
    }

    /** The quantifier has one instance; it keeps GrownPaid folded in the loops. */
    ghost predicate Growing(mem0: seq<Page>, owner0: seq<Owner>, refs0: Refs, n0: nat, t: nat, a: nat,
                            want: seq<(nat, Page)>)
      reads this
    {
      forall n: nat :: n == |want| ==> GrownPaid(mem0, owner0, refs0, n0, t, a, want, n)
    }

    lemma GrownNone(t: nat, a: nat)
      requires Valid()
      ensures Growing(mem, owner, refs, |free|, t, a, [])
    {
      assert Ok(lo, hi, mem, freelist, free, refs, owner);
      NewsNone(mem, owner, refs, t, a);
      RestNone(mem, owner, t, a);
      SpentNone(Tables(refs), |free|);
    }

    /** All n pages: they have been paid for. */
    lemma GrownAll(mem0: seq<Page>, owner0: seq<Owner>, refs0: Refs, n0: nat, t: nat, a: nat, want: seq<(nat, Page)>)
      requires Growing(mem0, owner0, refs0, n0, t, a, want)
      ensures GrownSince(mem0, owner0, refs0, t, a, want) && !Short(Tables(refs0), n0, Ways(t, a, |want|), |want|)
    {
      assert GrownPaid(mem0, owner0, refs0, n0, t, a, want, |want|);
      Enough(Tables(refs0), n0, Tables(refs), |free|, Ways(t, a, |want|), |want|);
    }

    /** One page more. */
    method GrowNext(t: nat, a: nat, ghost want: seq<(nat, Page)>, i: nat, x: Page, perm: nat, ghost mem0: seq<Page>,
                    ghost owner0: seq<Owner>, ghost refs0: Refs, ghost n0: nat)
      returns (ok: bool)
      requires Valid() && Growing(mem0, owner0, refs0, n0, t, a, want) && |want| == i && Key(t, 0, 0) in refs0
        && a + i < MAXPAGE && Key(t, 3, a + i) !in refs0
      requires x.Bytes? && |x.data| == PGSIZE && WithV(perm) < 1024 && HasRWX(WithV(perm))
      modifies this
      ensures Valid() && if ok then Growing(mem0, owner0, refs0, n0, t, a, want + [(WithV(perm), x)])
              else GrownSince(mem0, owner0, refs0, t, a, want) && Short(Tables(refs0), n0, Ways(t, a, i + 1), i + 1)
    {
      assert GrownPaid(mem0, owner0, refs0, n0, t, a, want, i);
      ghost var mem1, owner1, refs1 := mem, owner, refs;
      assert NewAt(mem, owner, refs, refs0, t, a, want, Key(t, 0, 0))
        && NewAt(mem, owner, refs, refs0, t, a, want, Key(t, 3, a + i));
      ghost var n1 := |free|;
      ok := FreshPage(t, a + i, x, perm);
      PayNext(Tables(refs0), n0, Tables(refs1), n1, Tables(refs), |free|, t, a, i, i, 1, ok);
      if ok {
        NewsStep(mem1, owner1, mem, owner, refs1, refs, refs0, t, a, want, WithV(perm), x);
        RestStep(mem0, owner0, mem1, owner1, mem, owner, t, a, i);
      } else {
        NewsKept(mem1, owner1, mem, owner, refs1, refs, refs0, t, a, want);
        RestKept(mem0, owner0, mem1, owner1, mem, owner, t, a, i);
      }
    }

    /** All leaf mappings, and all pages but those of lower tables, are as in an earlier state. */
    ghost predicate Undone(mem0: seq<Page>, owner0: seq<Owner>, refs0: Refs)
      reads this
    {
      SameLeaves(refs0, refs) && Kept(mem0, owner0, mem, owner)
    }

    /** The new pages are unmapped and freed: the state before, up to lower tables. */
    method Undo(t: nat, a: nat, n: nat, ghost want: seq<(nat, Page)>, ghost mem0: seq<Page>, ghost owner0: seq<Owner>,
                ghost refs0: Refs)
      requires Valid() && GrownSince(mem0, owner0, refs0, t, a, want) && |want| == n && Key(t, 0, 0) in refs0
        && a + n <= MAXPAGE
      requires Unmapped(refs0, t, a, n) && TreeOk(refs0, owner0)
      modifies this
      ensures Valid() && Undone(mem0, owner0, refs0)
    {
      ghost var mem1, owner1, refs1 := mem, owner, refs;
      assert NewAt(mem, owner, refs, refs0, t, a, want, Key(t, 0, 0));
      NewsUnmappable(mem, owner, refs, refs0, t, a, want);
      var ok := Uvmunmap(t, a, n, true);
      UndoLeaves(mem1, owner1, refs0, refs1, refs, t, a, want);
      UndoPages(mem0, owner0, refs0, mem1, owner1, mem, owner, t, a, n);
    }

    /** One page more of n; without memory for it, all new pages go again. */
    method GrowOrUndo(t: nat, a: nat, n: nat, ghost want: seq<(nat, Page)>, i: nat, x: Page, perm: nat,
                      ghost mem0: seq<Page>, ghost owner0: seq<Owner>, ghost refs0: Refs, ghost n0: nat)
      returns (ok: bool)
      requires Valid() && Growing(mem0, owner0, refs0, n0, t, a, want) && |want| == i < n && Key(t, 0, 0) in refs0
        && a + n <= MAXPAGE
      requires Unmapped(refs0, t, a, n) && TreeOk(refs0, owner0)
      requires x.Bytes? && |x.data| == PGSIZE && WithV(perm) < 1024 && HasRWX(WithV(perm))
      modifies this
      ensures Valid() && if ok then Growing(mem0, owner0, refs0, n0, t, a, want + [(WithV(perm), x)])
              else Undone(mem0, owner0, refs0) && Short(Tables(refs0), n0, Ways(t, a, n), n)
    {
      assert Key(t, 3, a + i) !in refs0 by { assert InRange(Key(t, 3, a + i), t, a, n); }
      ok := GrowNext(t, a, want, i, x, perm, mem0, owner0, refs0, n0);
      if !ok {
        ShortMore(Tables(refs0), n0, t, a, i + 1, n, i + 1, n);
        Undo(t, a, i, want, mem0, owner0, refs0);
      }
    }

    /** uvmdealloc, of pages that are mapped and their table's own. */
    method Uvmdealloc(t: nat, oldsz: nat, newsz: nat) returns (r: nat)
      requires Valid() && Key(t, 0, 0) in refs && Up(oldsz) <= MAXPAGE
      requires forall i :: 0 <= i < Up(oldsz) - Up(newsz) ==> Unmappable(refs, owner, t, Up(newsz), i, true)
      modifies this
      ensures Valid() && r == (if newsz >= oldsz then oldsz else newsz)
      ensures UnmappedSince(old(mem), old(owner), old(refs), t, Up(newsz), if newsz >= oldsz then 0
                            else Up(oldsz) - Up(newsz), true)
    {
      assert Ok(lo, hi, mem, freelist, free, refs, owner);
      LessNone(refs, t, Up(newsz));
      GoneNone(mem, owner, t, Up(newsz), true);
      if newsz >= oldsz {
        return oldsz;
      }
      if Up(newsz) < Up(oldsz) {
        var ok := Uvmunmap(t, Up(newsz), Up(oldsz) - Up(newsz), true);
      }
      return newsz;
    }

    /** The pages that uvmalloc adds: zeroed, for the user to read, write and execute. */
    ghost function Zeroed(n: nat): (want: seq<(nat, Page)>)
      ensures |want| == n
    {
      seq(n, _ => (31, Bytes(seq(PGSIZE, _ => 0))))
    }

    /** The loop of uvmalloc over the n pages from a on up to newsz. */
    method AllocLoop(t: nat, a: nat, newsz: nat, n: nat) returns (ok: bool)
      requires Valid() && Key(t, 0, 0) in refs && a + n == Up(newsz) <= MAXPAGE && Unmapped(refs, t, a, n)
      modifies this
      ensures Valid() && if ok then GrownSince(old(mem), old(owner), old(refs), t, a, Zeroed(n))
              else Undone(old(mem), old(owner), old(refs))
      ensures ok <==> !Short(Tables(old(refs)), |old(free)|, Ways(t, a, n), n)
    {
      assert Ok(lo, hi, mem, freelist, free, refs, owner);
      var i := 0;
      GrownNone(t, a);
      assert Zeroed(0) == [];
      while (a + i) * PGSIZE < newsz
        invariant i <= n && Valid() && Growing(old(mem), old(owner), old(refs), |old(free)|, t, a, Zeroed(i))
        decreases n - i
      {
        var x := Bytes(seq(PGSIZE, _ => 0));
        ok := GrowOrUndo(t, a, n, Zeroed(i), i, x, 30, old(mem), old(owner), old(refs), |old(free)|);
        if !ok {
          return;
        }
        assert Zeroed(i) + [(31, x)] == Zeroed(i + 1);
        i := i + 1;
      }
      UpReached(a + i, newsz);
      GrownAll(old(mem), old(owner), old(refs), |old(free)|, t, a, Zeroed(n));
      ok := true;
    }

    /** uvmalloc: all the new pages, or none of them. */
    method Uvmalloc(t: nat, oldsz: nat, newsz: nat) returns (ok: bool, r: nat)
      requires Valid() && Key(t, 0, 0) in refs && Up(newsz) <= MAXPAGE
      requires newsz >= oldsz ==> Unmapped(refs, t, Up(oldsz), Up(newsz) - Up(oldsz))
      modifies this
      ensures Valid()
      ensures newsz < oldsz ==> ok && r == oldsz && mem == old(mem) && refs == old(refs) && owner == old(owner)
      ensures newsz >= oldsz ==>
        if ok then r == newsz && GrownSince(old(mem), old(owner), old(refs), t, Up(oldsz),
                                            Zeroed(Up(newsz) - Up(oldsz)))
        else r == 0 && Undone(old(mem), old(owner), old(refs))
      ensures newsz >= oldsz ==>
        var n := Up(newsz) - Up(oldsz);
        ok <==> !Short(Tables(old(refs)), |old(free)|, Ways(t, Up(oldsz), n), n)
      // to users: the new addresses are zeros with all permissions, and no other address has changed
      ensures ok && newsz >= oldsz ==> NewRange(mem, refs, t, Up(oldsz) * PGSIZE, Up(newsz) * PGSIZE)
      ensures ok && newsz >= oldsz ==>
        SameBut(old(mem), old(refs), mem, refs, t, Up(oldsz) * PGSIZE, Up(newsz) * PGSIZE)
      ensures !ok ==> SameBut(old(mem), old(refs), mem, refs, 0, 0, 0)
    {
      if newsz < oldsz {
        return true, oldsz;
      }
      var n := Up(newsz) - Up(oldsz);
      ok := AllocLoop(t, Up(oldsz), newsz, n);
      r := if ok then newsz else 0;
      if ok {
        GrownNew(mem, owner, refs, old(refs), t, Up(oldsz), Zeroed(n));
        GrownSame(lo, hi, old(mem), old(freelist), old(free), old(refs), old(owner), mem, owner, refs, t, Up(oldsz),
                  Zeroed(n));
      } else {
        UndoneSame(lo, hi, old(mem), old(freelist), old(free), old(refs), old(owner), mem, owner, refs);
      }
    }

    /** Looking up a mapped page: the physical page and the flags of its entry; false would be one of the panics. */
    method LookUp(t: nat, a: nat) returns (ok: bool, p: nat, flags: nat)
      requires Valid() && Key(t, 0, 0) in refs && a < MAXPAGE && Key(t, 3, a) in refs
      modifies this
      ensures Valid() && mem == old(mem) && refs == old(refs) && owner == old(owner) && free == old(free)
      ensures ok && p == refs[Key(t, 3, a)].ppn < |mem| && flags == refs[Key(t, 3, a)].flags < 1024
        && HasRWX(flags) && HasV(flags)
      ensures p < |owner| && (owner[p] == Own(Key(t, 3, a)) ==> mem[p].Bytes? && |mem[p].data| == PGSIZE)
    {
      var page;
      assert Node(t, a, 3) == Key(t, 3, a);
      ok, page := WalkMapped(t, a);
      assert Ok(lo, hi, mem, freelist, free, refs, owner);
      NodeStep(t, a, 2);
      ghost var k, c := Node(t, a, 2), Node(t, a, 3);
      assert EntryOk(mem, refs, k, Px(0, a)) && NodeOk(refs, owner, c);
      assert DataOk(lo, hi, mem, owner, refs[c].ppn);
      var pte := mem[page].ptes[Px(0, a)];
      LeafPte(refs[c].ppn, refs[c].flags, pte);
      ok := pte % 2 == 1;
      p, flags := Ppn(pte), Flags(pte);
    }

    /** One turn of uvmcopy's loop. */
    method CopyNext(told: nat, tnew: nat, i: nat, n: nat, ghost mem0: seq<Page>, ghost owner0: seq<Owner>,
                    ghost refs0: Refs, ghost n0: nat) returns (ok: bool)
      requires told != tnew && Valid() && i < n <= MAXPAGE && |mem0| == |owner0| && Key(told, 0, 0) in refs0
        && Key(tnew, 0, 0) in refs0 && TreeOk(refs0, owner0)
      requires Unmapped(refs0, tnew, 0, n) && forall j :: 0 <= j < n ==> Unmappable(refs0, owner0, told, 0, j, true)
      requires Growing(mem0, owner0, refs0, n0, tnew, 0, Copied(mem0, refs0, owner0, told, i))
      modifies this
      ensures Valid()
      ensures ok ==> Growing(mem0, owner0, refs0, n0, tnew, 0, Copied(mem0, refs0, owner0, told, i + 1))
      ensures !ok ==> Undone(mem0, owner0, refs0) && Short(Tables(refs0), n0, Ways(tnew, 0, n), n)
    {
      ghost var want, c := Copied(mem0, refs0, owner0, told, i), Key(told, 3, i);
      assert Unmappable(refs0, owner0, told, 0, i, true);
      assert GrownPaid(mem0, owner0, refs0, n0, tnew, 0, want, i);
      assert NewAt(mem, owner, refs, refs0, tnew, 0, want, c)
        && NewAt(mem, owner, refs, refs0, tnew, 0, want, Key(told, 0, 0));
      assert RestPage(mem0, owner0, mem, owner, tnew, 0, i, refs0[c].ppn);
      var p, flags;
      ok, p, flags := LookUp(told, i);
      ok := GrowOrUndo(tnew, 0, n, want, i, mem[p], flags, mem0, owner0, refs0, n0);
      assert want + [(flags, mem0[p])] == Copied(mem0, refs0, owner0, told, i + 1);
    }

    /** uvmcopy: the child's table gets a copy of every page below sz, or none of them. */
    method Uvmcopy(told: nat, tnew: nat, sz: nat) returns (ok: bool)
      requires told != tnew && Valid() && |mem| == |owner| && Key(told, 0, 0) in refs && Key(tnew, 0, 0) in refs
        && Up(sz) <= MAXPAGE
      requires Unmapped(refs, tnew, 0, Up(sz)) && forall j :: 0 <= j < Up(sz) ==>
        Unmappable(refs, owner, told, 0, j, true)
      modifies this
      ensures Valid()
      ensures if ok then GrownSince(old(mem), old(owner), old(refs), tnew, 0,
                                    Copied(old(mem), old(refs), old(owner), told, Up(sz)))
              else Undone(old(mem), old(owner), old(refs))
      ensures ok <==> !Short(Tables(old(refs)), |old(free)|, Ways(tnew, 0, Up(sz)), Up(sz))
      // to users: the child has what the parent has, and no other address has changed
      ensures ok ==> CopiedRange(old(mem), old(refs), told, mem, refs, tnew, Up(sz) * PGSIZE)
      ensures ok ==> SameBut(old(mem), old(refs), mem, refs, tnew, 0, Up(sz) * PGSIZE)
      ensures !ok ==> SameBut(old(mem), old(refs), mem, refs, 0, 0, 0)
    {
      ok := CopyLoop(told, tnew, sz);
      if ok {
        GrownCopy(old(mem), old(owner), old(refs), told, mem, owner, refs, tnew, Up(sz));
        GrownSame(lo, hi, old(mem), old(freelist), old(free), old(refs), old(owner), mem, owner, refs, tnew, 0,
                  Copied(old(mem), old(refs), old(owner), told, Up(sz)));
      } else {
        UndoneSame(lo, hi, old(mem), old(freelist), old(free), old(refs), old(owner), mem, owner, refs);
      }
    }

    /** The loop of uvmcopy. */
    method CopyLoop(told: nat, tnew: nat, sz: nat) returns (ok: bool)
      requires told != tnew && Valid() && |mem| == |owner| && Key(told, 0, 0) in refs && Key(tnew, 0, 0) in refs
        && Up(sz) <= MAXPAGE
      requires Unmapped(refs, tnew, 0, Up(sz)) && forall j :: 0 <= j < Up(sz) ==>
        Unmappable(refs, owner, told, 0, j, true)
      modifies this
      ensures Valid()
      ensures if ok then GrownSince(old(mem), old(owner), old(refs), tnew, 0,
                                    Copied(old(mem), old(refs), old(owner), told, Up(sz)))
              else Undone(old(mem), old(owner), old(refs))
      ensures ok <==> !Short(Tables(old(refs)), |old(free)|, Ways(tnew, 0, Up(sz)), Up(sz))
    {
      assert Ok(lo, hi, mem, freelist, free, refs, owner);
      var i := 0;
      GrownNone(tnew, 0);
      assert Copied(mem, refs, owner, told, 0) == [];
      while i * PGSIZE < sz
        invariant i <= Up(sz) && Valid()
        invariant Growing(old(mem), old(owner), old(refs), |old(free)|, tnew, 0,
                          Copied(old(mem), old(refs), old(owner), told, i))
        decreases Up(sz) - i
      {
        ok := CopyNext(told, tnew, i, Up(sz), old(mem), old(owner), old(refs), |old(free)|);
        if !ok {
          return;
        }
        i := i + 1;
      }
      UpReached(i, sz);
      GrownAll(old(mem), old(owner), old(refs), |old(free)|, tnew, 0,
               Copied(old(mem), old(refs), old(owner), told, Up(sz)));
      ok := true;
    }

    /** The nodes in gone have left the tables since an earlier state, and their pages are free. */
    ghost predicate CutSince(mem0: seq<Page>, owner0: seq<Owner>, refs0: Refs, gone: set<Key>, pg: int)
      reads this
    {
      refs == refs0 - gone && Cut(mem0, owner0, mem, owner, gone, pg)
    }

    /** The end of freewalk: the table page itself. */
    method FreeTable(ghost k: Key, page: nat, ghost mem0: seq<Page>, ghost owner0: seq<Owner>, ghost refs0: Refs)
      returns (ok: bool)
      requires Valid() && k in refs0 && k.d < 3 && refs0[k].ppn == page && TreeOk(refs0, owner0)
      requires CutSince(mem0, owner0, refs0, Subtrees(refs0, k, 512), page)
      modifies this
      ensures ok && OkBut(lo, hi, mem, freelist, free, refs, owner, k)
        && CutSince(mem0, owner0, refs0, Subtree(refs0, k), -1)
    {
      assert Ok(lo, hi, mem, freelist, free, refs, owner);
      assert NodeOk(refs0, owner0, k);
      SubtreeParts(refs0, k);
      forall l | l in refs && l.d > 0 ensures Parent(l) != k {
        if Parent(l) == k { assert Under(k, k) && Under(l, k); UnderChild(l, k); }
      }
      DropTable(lo, hi, mem, freelist, free, refs, owner, k);
      ghost var mem1, owner1 := mem, owner;
      forall p | 0 <= p < |mem0| && p != page ensures owner0[p] != Own(k) { assert PageOk(refs0, owner0, p); }
      CutLast(mem0, owner0, mem1, owner1, Subtrees(refs0, k, 512), page, k, Run(freelist));
      refs, owner := refs - {k}, owner[page := Held];
      ok := KfreeBut(page, k);
      assert owner == owner1[page := Free];
    }

    /** One turn of freewalk's loop: the subtree behind entry e of node k is freed. */
    method FreeEntry(ghost k: Key, page: nat, e: nat) returns (ok: bool)
      requires Valid() && k in refs && k.d < 3 && refs[k].ppn == page && e < 512 && NoLeaf(refs, k.t)
      modifies this
      ensures ok && Valid() && CutSince(old(mem), old(owner), old(refs), Subtree(old(refs), Child(k, e)), page)
      decreases 3 - k.d, 0
    {
      assert Ok(lo, hi, mem, freelist, free, refs, owner);
      assert EntryOk(mem, refs, k, e) && NodeOk(refs, owner, k);
      ghost var c := Child(k, e);
      var pte := mem[page].ptes[e];
      if c in refs {
        assert NodeOk(refs, owner, c);
        TablePte(refs[c].ppn, pte);
      }
      if pte % 2 == 1 && pte / 2 % 8 == 0 {
        ok := Freewalk(c, Ppn(pte));
        assert CutPage(old(mem), old(owner), mem, owner, Subtree(old(refs), c), -1,
                       page) by { if Under(k, c) { ChildUnder(k, k, e); } }
        CloseHole(lo, hi, mem, freelist, free, refs, owner, k, e) by { if Under(k, c) { ChildUnder(k, k, e); } }
        ghost var mem1 := mem;
        mem := SetPte(mem, page, e, 0);
        CutMore(old(mem), old(owner), mem1, mem, owner, Subtree(old(refs), c), page);
      } else if pte % 2 == 1 {
        return false;
      } else {
        NoSubtree(refs, owner, c);
        CutNone(mem, owner, page);
        assert refs - {} == refs;
        ok := true;
      }
    }

    method FreeNext(ghost k: Key, page: nat, i: nat, ghost mem0: seq<Page>, ghost owner0: seq<Owner>,
                    ghost refs0: Refs) returns (ok: bool)
      requires Valid() && k in refs0 && k.d < 3 && refs0[k].ppn == page && i < 512 && NoLeaf(refs0, k.t)
      requires CutSince(mem0, owner0, refs0, Subtrees(refs0, k, i), page)
      modifies this
      ensures ok && Valid() && CutSince(mem0, owner0, refs0, Subtrees(refs0, k, i + 1), page)
      decreases 3 - k.d, 1
    {
      ghost var mem1, owner1, refs1 := mem, owner, refs;
      NotBelow(k, i);
      ok := FreeEntry(k, page, i);
      SubtreesNext(refs0, k, i);
      CutThen(mem0, owner0, mem1, owner1, mem, owner, Subtrees(refs0, k, i), Subtree(refs1, Child(k, i)), page);
      assert refs == refs0 - Subtrees(refs0, k, i + 1);
    }

    /** freewalk of the table at node k, from which all leaves are gone; false would be a panic. */
    method Freewalk(ghost k: Key, page: nat) returns (ok: bool)
      requires Valid() && k in refs && k.d < 3 && refs[k].ppn == page && NoLeaf(refs, k.t)
      modifies this
      ensures ok && OkBut(lo, hi, mem, freelist, free, refs, owner, k)
        && CutSince(old(mem), old(owner), old(refs), Subtree(old(refs), k), -1)
      decreases 3 - k.d, 2
    {
      assert Ok(lo, hi, mem, freelist, free, refs, owner);
      assert NodeOk(refs, owner, k);
      var i := 0;
      CutNone(mem, owner, page);
      assert Subtrees(refs, k, 0) == {} && refs - {} == refs;
      while i < 512
        invariant 0 <= i <= 512 && Valid() && CutSince(old(mem), old(owner), old(refs), Subtrees(old(refs), k, i), page)
      {
        ok := FreeNext(k, page, i, old(mem), old(owner), old(refs));
        i := i + 1;
      }
      ok := FreeTable(k, page, old(mem), old(owner), old(refs));
    }

    /** uvmfree: every page of the table, leaf or lower table, goes back to the free list, and no other page changes. */
    method Uvmfree(t: nat, sz: nat) returns (ok: bool)
      requires Valid() && Key(t, 0, 0) in refs && Up(sz) <= MAXPAGE
      requires forall i :: 0 <= i < Up(sz) ==> Unmappable(refs, owner, t, 0, i, true)
      requires forall k :: k in refs && k.t == t && k.d == 3 ==> k.idx < Up(sz)
      modifies this
      ensures ok && Valid()
      ensures forall l :: l in refs ==> l.t != t
      ensures forall l: Key :: l.t != t && (l.d == 0 || l.d == 3) ==> SameAt(old(refs), refs, l)
      ensures Freed(old(mem), old(owner), mem, owner, t)
    {
      assert Ok(lo, hi, mem, freelist, free, refs, owner);
      LessNone(refs, t, 0);
      GoneNone(mem, owner, t, 0, true);
      ghost var n := Up(sz);
      if sz > 0 {
        ok := Uvmunmap(t, 0, Up(sz), true);
      }
      assert Ok(lo, hi, mem, freelist, free, refs, owner);
      ghost var mem1, owner1, refs1, root := mem, owner, refs, Key(t, 0, 0);
      assert LessAt(old(refs), refs, t, 0, n, root)
        && NodeOk(refs, owner, root) by { assert LessAt(old(refs), refs, t, 0, n, root); }
      forall k: Key | k.t == t && k.d == 3 ensures k !in refs { assert LessAt(old(refs), refs, t, 0, n, k); }
      forall k | k in refs && k.t == t ensures k.d < 3 { assert NodeOk(refs, owner, k); }
      ok := Freewalk(root, t);
      NoHole(lo, hi, mem, freelist, free, refs, owner, root);
      forall l | l in refs ensures l.t != t { if l.t == t { UnderRoot(refs1, owner1, l); } }
      forall l: Key | l.t != t && (l.d == 0 || l.d == 3) ensures SameAt(old(refs), refs, l) {
        assert LessAt(old(refs), refs1, t, 0, n, l);
        if Under(l, root) { UnderDepth(l, root); }
      }
      FreedAll(old(mem), old(owner), mem1, owner1, mem, owner, refs1, t, n);
    }

    /** walkaddr: the physical page of a user page, 0 if there is none. */
    method Walkaddr(t: nat, a: nat) returns (p: nat)
      requires Valid() && Key(t, 0, 0) in refs
      modifies this
      ensures Valid() && mem == old(mem) && refs == old(refs) && owner == old(owner)
      ensures if UserPage(refs, t, a) then p == refs[Key(t, 3, a)].ppn && 0 < p else p == 0
      ensures p != 0 <==> a < MAXPAGE && Key(t, 3, a) in refs && refs[Key(t, 3, a)].flags / 16 % 2 == 1   // PTE_U
    {
      if a >= MAXPAGE {
        return 0;
      }
      var ok, page := Walk(t, a, false);
      if !ok {
        return 0;
      }
      assert Ok(lo, hi, mem, freelist, free, refs, owner);
      NodeStep(t, a, 2);
      ghost var k, c := Node(t, a, 2), Key(t, 3, a);
      assert EntryOk(mem, refs, k, Px(0, a));
      var pte := mem[page].ptes[Px(0, a)];
      if c in refs {
        assert NodeOk(refs, owner, c);
        LeafPte(refs[c].ppn, refs[c].flags, pte);
        if HasU(refs[c].flags) { UserOwn(lo, hi, mem, freelist, free, refs, owner, t, a); }
      }
      if pte % 2 == 0 {
        return 0;
      }
      if !HasU(Flags(pte)) {
        return 0;
      }
      return Ppn(pte);
    }

    /** One turn of copyout's loop. */
    method StorePage(t: nat, va: nat, w: seq<Byte>) returns (ok: bool)
      requires Valid() && Key(t, 0, 0) in refs && va % PGSIZE + |w| <= PGSIZE
      modifies this
      ensures Valid() && refs == old(refs) && owner == old(owner) && (ok <==> UserPage(refs, t, va / PGSIZE))
      ensures if ok then Stored(old(mem), mem, refs, t, va, w) else mem == old(mem)
    {
      var p := Walkaddr(t, va / PGSIZE);
      if p == 0 {
        return false;
      }
      assert Ok(lo, hi, mem, freelist, free, refs, owner);
      UserOwn(lo, hi, mem, freelist, free, refs, owner, t, va / PGSIZE);
      PageStored(lo, hi, mem, freelist, free, refs, owner, t, va, w);
      var d := Put(mem[p].data, va % PGSIZE, w);
      DataWrite(lo, hi, mem, freelist, free, refs, owner, p, d);
      mem := mem[p := Bytes(d)];
      ok := true;
    }

    /** copyout: all of src goes to dstva, or what fits before the first page that is not the user's. */
    method Copyout(t: nat, dstva: nat, src: seq<Byte>) returns (ok: bool, ghost done: nat)
      requires Valid() && Key(t, 0, 0) in refs
      modifies this
      ensures Valid() && refs == old(refs) && owner == old(owner) && done <= |src|
        && Stored(old(mem), mem, refs, t, dstva, src[..done])
      ensures if ok then done == |src| else done < |src| && !UserAt(refs, t, dstva + done)
      ensures forall x :: dstva <= x < dstva + done ==> UserAt(refs, t, x)
    {
      var i := 0;
      StoredNone(mem, refs, t, dstva);
      assert src[..0] == [];
      while i < |src|
        invariant i <= |src| && Valid() && refs == old(refs) && owner == old(owner)
          && Stored(old(mem), mem, refs, t, dstva, src[..i])
        invariant forall x :: dstva <= x < dstva + i ==> UserAt(refs, t, x)
      {
        var va := dstva + i;
        var n := PGSIZE - va % PGSIZE;
        if n > |src| - i {
          n := |src| - i;
        }
        ghost var mem1 := mem;
        ok := StorePage(t, va, src[i..i + n]);
        if !ok {
          return false, i;
        }
        StoredThen(old(mem), mem1, mem, refs, t, dstva, src[..i], src[i..i + n]);
        assert src[..i] + src[i..i + n] == src[..i + n];
        forall x | va <= x < va + n ensures UserAt(refs, t, x) { InPage(va, x, n); }
        i := i + n;
      }
      assert src[..|src|] == src;
      return true, |src|;
    }

    /** copyin: the user's bytes from srcva on; nothing changes. */
    method Copyin(t: nat, srcva: nat, len: nat) returns (ok: bool, dst: seq<Byte>)
      requires Valid() && Key(t, 0, 0) in refs
      modifies this
      ensures Valid() && mem == old(mem) && refs == old(refs) && owner == old(owner)
      ensures |dst| <= len && dst == UserBytes(mem, refs, t, srcva, |dst|)
      ensures if ok then |dst| == len else |dst| < len && !UserAt(refs, t, srcva + |dst|)
      ensures forall x :: srcva <= x < srcva + |dst| ==> UserAt(refs, t, x)
    {
      dst := [];
      while |dst| < len
        invariant |dst| <= len && Valid() && mem == old(mem) && refs == old(refs) && owner == old(owner)
          && dst == UserBytes(mem, refs, t, srcva, |dst|)
        invariant forall x :: srcva <= x < srcva + |dst| ==> UserAt(refs, t, x)
      {
        var va := srcva + |dst|;
        var p := Walkaddr(t, va / PGSIZE);
        if p == 0 {
          return false, dst;
        }
        var n := PGSIZE - va % PGSIZE;
        if n > len - |dst| {
          n := len - |dst|;
        }
        assert Ok(lo, hi, mem, freelist, free, refs, owner);
        UserOwn(lo, hi, mem, freelist, free, refs, owner, t, va / PGSIZE);
        var chunk := mem[p].data[va % PGSIZE..va % PGSIZE + n];
        ReadPage(mem, refs, t, srcva, |dst|, n);
        forall x | va <= x < va + n ensures UserAt(refs, t, x) { InPage(va, x, n); }
        dst := dst + chunk;
      }
      ok := true;
    }
  }

  /** copyin after a successful copyout of the same range returns the same bytes. */
  method RoundTrip(m: Memory, t: nat, va: nat, src: seq<Byte>) returns (ok: bool, dst: seq<Byte>)
    requires m.Valid() && Key(t, 0, 0) in m.refs
    modifies m
    ensures ok ==> dst == src
    ensures ok <==> forall x :: va <= x < va + |src| ==> UserAt(m.refs, t, x)
  {
    ghost var done;
    ghost var mem0 := m.mem;
    ok, done := m.Copyout(t, va, src);
    dst := [];
    if ok {
      assert src[..|src|] == src;
      StoredReads(mem0, m.mem, m.refs, t, va, src);
      ok, dst := m.Copyin(t, va, |src|);
    }
  }

  /** Memory that uvmalloc has just added reads as zeros and takes whatever is written to it. */
  method GrownUsable(m: Memory, t: nat, oldsz: nat, newsz: nat, va: nat, src: seq<Byte>)
    returns (grown: bool, ok: bool, before: seq<Byte>)
    requires m.Valid() && Key(t, 0, 0) in m.refs && oldsz <= newsz && Up(newsz) <= MAXPAGE
    requires Unmapped(m.refs, t, Up(oldsz), Up(newsz) - Up(oldsz))
    requires Up(oldsz) * PGSIZE <= va && va + |src| <= Up(newsz) * PGSIZE
    modifies m
    ensures grown ==> ok && UserBytes(m.mem, m.refs, t, va, |src|) == src
    ensures grown ==> |before| == |src| && forall i :: 0 <= i < |src| ==> before[i] == 0
  {
    var sz;
    grown, sz := m.Uvmalloc(t, oldsz, newsz);
    ok, before := false, [];
    if grown {
      assert NewAt(m.mem, m.owner, m.refs, old(m.refs), t, Up(oldsz), m.Zeroed(Up(newsz) - Up(oldsz)), Key(t, 0, 0));
      NewReads(m.mem, m.refs, t, Up(oldsz) * PGSIZE, Up(newsz) * PGSIZE, va, |src|);
      ok, before := m.Copyin(t, va, |src|);
      ok := Fits(m, t, va, src);
    }
  }

  lemma NewReads(mem: seq<Page>, refs: Refs, t: nat, from: nat, to: nat, va: nat, n: nat)
    requires NewRange(mem, refs, t, from, to) && from <= va && va + n <= to
    ensures forall x: nat :: va <= x < va + n ==> UserAt(refs, t, x)
    ensures forall i :: 0 <= i < n ==> UserBytes(mem, refs, t, va, n)[i] == 0
  {
    forall x: nat | va <= x < va + n ensures UserAt(refs, t, x) { assert NewByte(mem, refs, t, x); }
    forall i | 0 <= i < n ensures UserBytes(mem, refs, t, va, n)[i] == 0 { assert NewByte(mem, refs, t, va + i); }
  }

  /** copyout to user memory. */
  method Fits(m: Memory, t: nat, va: nat, src: seq<Byte>) returns (ok: bool)
    requires m.Valid() && Key(t, 0, 0) in m.refs && forall x: nat :: va <= x < va + |src| ==> UserAt(m.refs, t, x)
    modifies m
    ensures ok && m.Valid() && m.refs == old(m.refs) && UserBytes(m.mem, m.refs, t, va, |src|) == src
  {
    ghost var done;
    ok, done := m.Copyout(t, va, src);
    assert src[..|src|] == src;
    StoredReads(old(m.mem), m.mem, m.refs, t, va, src);
  }

  lemma ReadPage(mem: seq<Page>, refs: Refs, t: nat, va: nat, i: nat, n: nat)
    requires UserPage(refs, t, (va + i) / PGSIZE) && (va + i) % PGSIZE + n <= PGSIZE
    requires
      var p := refs[Key(t, 3, (va + i) / PGSIZE)].ppn;
      p < |mem| && mem[p].Bytes? && |mem[p].data| == PGSIZE
    ensures
      var p, o := refs[Key(t, 3, (va + i) / PGSIZE)].ppn, (va + i) % PGSIZE;
      UserBytes(mem, refs, t, va, i) + mem[p].data[o..o + n] == UserBytes(mem, refs, t, va, i + n)
  {
    var p, o := refs[Key(t, 3, (va + i) / PGSIZE)].ppn, (va + i) % PGSIZE;
    var x, y := UserBytes(mem, refs, t, va, i) + mem[p].data[o..o + n], UserBytes(mem, refs, t, va, i + n);
    forall j | 0 <= j < i + n ensures x[j] == y[j] {
      if j >= i { InPage(va + i, va + j, n); }
    }
  }

  /** Exactly the pages of table t have become free. */
  ghost predicate FreedPage(mem: seq<Page>, owner: seq<Owner>, mem': seq<Page>, owner': seq<Owner>, t: nat, p: nat) {
    && p < |mem| == |owner| == |mem'| == |owner'|
    && if owner[p].Own? && owner[p].k.t == t then owner'[p] == Free
       else owner'[p] == owner[p] && (owner[p] == Held || owner[p] == Reserved || Data(owner[p]) ==> mem'[p] == mem[p])
  }

  ghost predicate Freed(mem: seq<Page>, owner: seq<Owner>, mem': seq<Page>, owner': seq<Owner>, t: nat) {
    |mem'| == |mem| == |owner| == |owner'| && forall p :: 0 <= p < |mem| ==> FreedPage(mem, owner, mem', owner', t, p)
  }

  lemma FreedAll(mem: seq<Page>, owner: seq<Owner>, mem1: seq<Page>, owner1: seq<Owner>, mem': seq<Page>,
                 owner': seq<Owner>, refs1: Refs, t: nat, n: nat)
    requires Gone(mem, owner, mem1, owner1, t, 0, n, true) && TreeOk(refs1, owner1)
      && Cut(mem1, owner1, mem', owner', Subtree(refs1, Key(t, 0, 0)), -1)
    ensures Freed(mem, owner, mem', owner', t)
  {
    forall p | 0 <= p < |mem| ensures FreedPage(mem, owner, mem', owner', t, p) {
      assert GonePage(mem, owner, mem1, owner1, t, 0, n, true, p)
        && CutPage(mem1, owner1, mem', owner', Subtree(refs1, Key(t, 0, 0)), -1, p);
      assert PageOk(refs1, owner1, p);
      if owner1[p].Own? {
        var k := owner1[p].k;
        UnderRoot(refs1, owner1, k);
        if Under(k, Key(t, 0, 0)) { UnderDepth(k, Key(t, 0, 0)); }
      }
    }
  }

  lemma NotBelow(k: Key, n: nat)
    requires n <= 512
    ensures !Below(k, k, n)
  {
    if e: nat :| e < n && Under(k, Child(k, e)) { ChildUnder(k, k, e); }
  }

  lemma NoSubtree(refs: Refs, owner: seq<Owner>, c: Key)
    requires TreeOk(refs, owner) && c !in refs
    ensures Subtree(refs, c) == {}
  {
    forall l | l in refs ensures !Under(l, c) { if Under(l, c) { UnderThere(refs, owner, l, c); } }
  }

  /** After the cut, page pg was also changed. */
  lemma CutMore(mem: seq<Page>, owner: seq<Owner>, mem': seq<Page>, mem'': seq<Page>, owner': seq<Owner>,
                gone: set<Key>, pg: nat)
    requires Cut(mem, owner, mem', owner', gone, -1) && |mem''| == |mem'| && forall p ::
      0 <= p < |mem'| && p != pg ==> mem''[p] == mem'[p]
    ensures Cut(mem, owner, mem'', owner', gone, pg)
  {
    forall p | 0 <= p < |mem| ensures CutPage(mem, owner, mem'', owner', gone, pg, p) {
      assert CutPage(mem, owner, mem', owner', gone, -1, p);
    }
  }

  /** A held page may be written freely. */
  lemma HeldWrite(lo: nat, hi: nat, mem: seq<Page>, head: nat, free: seq<nat>, refs: Refs, owner: seq<Owner>, p: nat,
                  x: Page)
    requires Ok(lo, hi, mem, head, free, refs, owner) && p < |owner| && owner[p] == Held
    ensures Ok(lo, hi, mem[p := x], head, free, refs, owner)
  {
    NoTable(mem, refs, owner, p, x);
    var mem' := mem[p := x];
    forall i | 0 <= i < |free| ensures RunOk(mem', owner, free, i) { assert RunOk(mem, owner, free, i); }
    forall q | 0 <= q < |owner| ensures DataOk(lo, hi, mem', owner, q) { assert DataOk(lo, hi, mem, owner, q); }
  }
}
