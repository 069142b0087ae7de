/**
 The user-level allocator (user/umalloc.c): a circular free list of blocks in
 address order, with neighbouring free blocks merged. Addresses are bytes; sizes are
 in units of one header.
 */
module Umalloc {
  import opened Common

  const UNIT := 16                        // sizeof(Header)
  const MIN_UNITS := 4096                 // the least morecore asks for
  const INT_LIMIT := 0x8000_0000          // 2^31
  const PGSIZE := 4096
  const SIZE_END := 12                    // where the size field of a header ends

  datatype Header = Header(ptr: nat, size: nat)

  datatype Blk = Blk(a: nat, n: nat) {
    function End(): nat { a + UNIT * n }

    predicate Has(x: nat) { a <= x < End() }

    predicate Apart(b: Blk) { End() <= b.a || b.End() <= a }
  }

  // ---- the free list as a sequence of blocks, from base on ----

  ghost predicate Ordered(bs: seq<Blk>, k: nat)
    requires k < |bs|
  {
    (k > 0 ==> bs[k].n > 0) && (k + 1 < |bs| ==> bs[k].End() < bs[k + 1].a)
  }

  /** Sorted, and no two neighbours touch: fully merged. */
  ghost predicate ListOk(bs: seq<Blk>, base: nat) {
    |bs| > 0 && bs[0] == Blk(base, 0) && forall k :: 0 <= k < |bs| ==> Ordered(bs, k)
  }

  lemma {:induction false} Far(bs: seq<Blk>, base: nat, i: nat, j: nat)
    requires ListOk(bs, base) && i < j < |bs|
    ensures bs[i].End() < bs[j].a
  {
    assert Ordered(bs, j - 1);
    if i < j - 1 { Far(bs, base, i, j - 1); }
  }

  ghost predicate HasAt(bs: seq<Blk>, k: nat, x: nat) { k < |bs| && bs[k].Has(x) }

  /** Byte x is in a free block. */
  ghost predicate InFree(bs: seq<Blk>, x: nat) { exists k: nat :: HasAt(bs, k, x) }

  /** Block b freed behind place w: merged with the next block and with the one before where they touch. */
  ghost function FreedList(bs: seq<Blk>, w: nat, b: Blk): seq<Blk>
    requires w < |bs|
  {
    var touches := w + 1 < |bs| && b.End() == bs[w + 1].a;
    var c := if touches then Blk(b.a, b.n + bs[w + 1].n) else b;
    var rest := if touches then bs[w + 2..] else bs[w + 1..];
    if bs[w].End() == b.a then bs[..w] + [Blk(bs[w].a, bs[w].n + c.n)] + rest else bs[..w + 1] + [c] + rest
  }

  /** b fits behind place w. */
  ghost predicate FitsAt(bs: seq<Blk>, base: nat, w: nat, b: Blk) {
    && ListOk(bs, base) && w < |bs| && b.n > 0 && base < b.a
    && bs[w].End() <= b.a && (w + 1 < |bs| ==> b.End() <= bs[w + 1].a)
  }

  lemma FreedOk(bs: seq<Blk>, base: nat, w: nat, b: Blk)
    requires FitsAt(bs, base, w, b)
    ensures ListOk(FreedList(bs, w, b), base)
  {
    var r := FreedList(bs, w, b);
    forall k | 0 <= k < |r| ensures Ordered(r, k) {
      if k < |bs| { assert Ordered(bs, k); }
      if k + 1 < |bs| { assert Ordered(bs, k + 1); }
      if 0 < k <= |bs| { assert Ordered(bs, k - 1); }
      if w + 1 < |bs| { assert Ordered(bs, w + 1); }
    }
  }

  lemma FreedHas(bs: seq<Blk>, base: nat, w: nat, b: Blk, x: nat)
    requires FitsAt(bs, base, w, b)
    ensures InFree(FreedList(bs, w, b), x) <==> InFree(bs, x) || b.Has(x)
  {
    var r := FreedList(bs, w, b);
    var joins, touches := bs[w].End() == b.a, w + 1 < |bs| && b.End() == bs[w + 1].a;
    var at := if joins then w else w + 1;
    assert r[at].Has(x) <==> b.Has(x) || (joins && bs[w].Has(x)) || (touches && bs[w + 1].Has(x));
    var shift := |r| - |bs|;
    if k: nat :| HasAt(bs, k, x) {
      assert HasAt(r, if k < at then k else if k <= w || (touches && k == w + 1) then at else k + shift, x);
    }
    if b.Has(x) { assert HasAt(r, at, x); }
    if k: nat :| HasAt(r, k, x) && k != at {
      assert HasAt(bs, if k < at then k else k - shift, x);
    } else if HasAt(r, at, x) {
      assert b.Has(x) || HasAt(bs, w, x) || HasAt(bs, w + 1, x);
    }
  }

  // ---- the headers in memory ----

  ghost function After(bs: seq<Blk>, k: nat): Blk
    requires k < |bs|
  {
    if k + 1 < |bs| then bs[k + 1] else bs[0]
  }

  ghost predicate Link(h: map<nat, Header>, bs: seq<Blk>, k: nat)
    requires k < |bs|
  {
    bs[k].a in h && h[bs[k].a] == Header(After(bs, k).a, bs[k].n)
  }

  /** The headers are linked in a circle in the order of bs. */
  ghost predicate Linked(h: map<nat, Header>, bs: seq<Blk>) {
    forall k :: 0 <= k < |bs| ==> Link(h, bs, k)
  }

  function EndOf(h: map<nat, Header>, a: nat): nat
    requires a in h
  {
    a + UNIT * h[a].size
  }

  /** free's first merge: of block bp with the one behind p. */
  function JoinNext(h: map<nat, Header>, p: nat, bp: nat): map<nat, Header>
    requires p in h && bp in h && h[p].ptr in h
  {
    var q := h[p].ptr;
    if EndOf(h, bp) == q then h[bp := Header(h[q].ptr, h[bp].size + h[q].size)] else h[bp := h[bp].(ptr := q)]
  }

  /** free's second merge: of p with block bp. */
  function JoinPrev(h: map<nat, Header>, p: nat, bp: nat): map<nat, Header>
    requires p in h && bp in h
  {
    if EndOf(h, p) == bp then h[p := Header(h[bp].ptr, h[p].size + h[bp].size)] else h[p := h[p].(ptr := bp)]
  }

  lemma FreedLinked(h: map<nat, Header>, bs: seq<Blk>, base: nat, w: nat, b: Blk)
    requires Linked(h, bs) && FitsAt(bs, base, w, b) && b.a in h && h[b.a].size == b.n
    ensures bs[w].a in h && h[bs[w].a].ptr in h
    ensures Linked(JoinPrev(JoinNext(h, bs[w].a, b.a), bs[w].a, b.a), FreedList(bs, w, b))
  {
    assert Link(h, bs, w);
    if w + 1 < |bs| { assert Link(h, bs, w + 1); } else { assert Link(h, bs, 0); }
    var r, h' := FreedList(bs, w, b), JoinPrev(JoinNext(h, bs[w].a, b.a), bs[w].a, b.a);
    forall k | 0 <= k < |r| ensures Link(h', r, k) { FreedLink(h, bs, base, w, b, k); }
  }

  lemma FreedLink(h: map<nat, Header>, bs: seq<Blk>, base: nat, w: nat, b: Blk, k: nat)
    requires Linked(h, bs) && FitsAt(bs, base, w, b) && b.a in h && h[b.a].size == b.n && k < |FreedList(bs, w, b)|
    requires bs[w].a in h && h[bs[w].a].ptr in h
    ensures Link(JoinPrev(JoinNext(h, bs[w].a, b.a), bs[w].a, b.a), FreedList(bs, w, b), k)
  {
    var r := FreedList(bs, w, b);
    assert Link(h, bs, w) && (w + 1 < |bs| ==> Link(h, bs, w + 1));
    var shift := |r| - |bs|;
    if k < w {
      assert Link(h, bs, k);
      Far(bs, base, k, w);
    } else if k - shift > w + 1 || (k - shift == w + 1 && b.End() != bs[w + 1].a) {
      assert Link(h, bs, k - shift);
      Far(bs, base, w, k - shift);
      if w + 1 < k - shift { Far(bs, base, w + 1, k - shift); }
    }
  }

  // ---- taking a block ----

  /** The units of a block that can hold nbytes behind its header. */
  function Units(nbytes: nat): nat { (nbytes + UNIT - 1) / UNIT + 1 }

  /** What malloc cuts off the end of block k. */
  ghost function Cut(bs: seq<Blk>, k: nat, nu: nat): Blk
    requires k < |bs| && nu <= bs[k].n
  {
    Blk(bs[k].a + UNIT * (bs[k].n - nu), nu)
  }

  ghost function CutList(bs: seq<Blk>, k: nat, nu: nat): seq<Blk>
    requires k < |bs| && nu <= bs[k].n
  {
    if bs[k].n == nu then bs[..k] + bs[k + 1..] else bs[k := Blk(bs[k].a, bs[k].n - nu)]
  }

  lemma CutOk(bs: seq<Blk>, base: nat, k: nat, nu: nat)
    requires ListOk(bs, base) && k < |bs| && 0 < nu <= bs[k].n
    ensures k > 0 && ListOk(CutList(bs, k, nu), base)
  {
    var r := CutList(bs, k, nu);
    assert Ordered(bs, k) && Ordered(bs, k - 1);
    forall i | 0 <= i < |r| ensures Ordered(r, i) {
      assert Ordered(bs, i);
      if i + 1 < |bs| { assert Ordered(bs, i + 1); }
      if k + 1 < |bs| { Far(bs, base, k - 1, k + 1); }
    }
  }

  lemma CutHas(bs: seq<Blk>, base: nat, k: nat, nu: nat, x: nat)
    requires ListOk(bs, base) && k < |bs| && 0 < nu <= bs[k].n
    ensures InFree(bs, x) <==> InFree(CutList(bs, k, nu), x) || Cut(bs, k, nu).Has(x)
  {
    var r := CutList(bs, k, nu);
    if i: nat :| HasAt(bs, i, x) {
      if i != k || !Cut(bs, k, nu).Has(x) { assert HasAt(r, if bs[k].n == nu && i > k then i - 1 else i, x); }
    }
    if i: nat :| HasAt(r, i, x) { assert HasAt(bs, if bs[k].n == nu && i >= k then i + 1 else i, x); }
    if Cut(bs, k, nu).Has(x) { assert HasAt(bs, k, x); }
  }

  function SetSize(h: map<nat, Header>, a: nat, n: nat): map<nat, Header> {
    h[a := Header(if a in h then h[a].ptr else 0, n)]
  }

  /** malloc's two ways to take nu units from block p behind prevp. */
  function CutMem(h: map<nat, Header>, prevp: nat, p: nat, nu: nat): map<nat, Header>
    requires prevp in h && p in h && nu <= h[p].size
  {
    if h[p].size == nu then h[prevp := h[prevp].(ptr := h[p].ptr)]
    else
      var n := h[p].size - nu;
      SetSize(h[p := h[p].(size := n)], p + UNIT * n, nu)
  }

  lemma CutLinked(h: map<nat, Header>, bs: seq<Blk>, base: nat, k: nat, nu: nat)
    requires ListOk(bs, base) && Linked(h, bs) && 0 < k < |bs| && 0 < nu <= bs[k].n
    ensures bs[k - 1].a in h && bs[k].a in h && h[bs[k].a].size == bs[k].n
    ensures Linked(CutMem(h, bs[k - 1].a, bs[k].a, nu), CutList(bs, k, nu))
  {
    assert Link(h, bs, k - 1) && Link(h, bs, k);
    var r, h' := CutList(bs, k, nu), CutMem(h, bs[k - 1].a, bs[k].a, nu);
    forall i | 0 <= i < |r| ensures Link(h', r, i) {
      var j := if bs[k].n == nu && i >= k then i + 1 else i;
      assert Link(h, bs, j);
      if j < k { Far(bs, base, j, k); }
      if k < j { Far(bs, base, k, j); }
      if j < k - 1 { Far(bs, base, j, k - 1); }
      if k - 1 < j { Far(bs, base, k - 1, j); }
    }
  }

  // ---- free and live blocks ----

  ghost predicate InLive(live: map<nat, nat>, x: nat) { exists a :: a in live && Blk(a, live[a]).Has(x) }

  /** A live block has its size in its header and lies apart from the free blocks and the other live ones. */
  ghost predicate LiveOk(h: map<nat, Header>, bs: seq<Blk>, live: map<nat, nat>, base: nat, a: nat)
    requires a in live
  {
    var b := Blk(a, live[a]);
    && base < a && live[a] > 0 && a in h && h[a].size == live[a]
    && (forall k :: 0 <= k < |bs| ==> b.Apart(bs[k]))
    && (forall c :: c in live && c != a ==> b.Apart(Blk(c, live[c])))
  }

  /** The blocks are free or live, apart, and together they are the bytes of heap. */
  ghost predicate HeapOk(h: map<nat, Header>, bs: seq<Blk>, live: map<nat, nat>, base: nat, heap: set<nat>) {
    && ListOk(bs, base) && Linked(h, bs)
    && (forall a :: a in live ==> LiveOk(h, bs, live, base, a))
    && forall x: nat :: x in heap <==> InFree(bs, x) || InLive(live, x)
  }

  lemma FreedLive(h: map<nat, Header>, bs: seq<Blk>, live: map<nat, nat>, base: nat, w: nat, bp: nat, c: nat)
    requires ListOk(bs, base) && Linked(h, bs) && bp in live && LiveOk(h, bs, live, base, bp)
      && FitsAt(bs, base, w, Blk(bp, live[bp]))
    requires c in live && c != bp && LiveOk(h, bs, live, base, c) && bs[w].a in h && h[bs[w].a].ptr in h
    ensures LiveOk(JoinPrev(JoinNext(h, bs[w].a, bp), bs[w].a, bp), FreedList(bs, w, Blk(bp, live[bp])), live - {bp},
                   base, c)
  {
    var r, shift := FreedList(bs, w, Blk(bp, live[bp])), |FreedList(bs, w, Blk(bp, live[bp]))| - |bs|;
    assert Link(h, bs, w) && Blk(c, live[c]).Apart(bs[w]) && Blk(c, live[c]).Apart(Blk(bp, live[bp]));
    assert w + 1 < |bs| ==> Blk(c, live[c]).Apart(bs[w + 1]);
    forall k | 0 <= k < |r| ensures Blk(c, live[c]).Apart(r[k]) {
      assert k < |bs| ==> Blk(c, live[c]).Apart(bs[k]);
      assert 0 <= k - shift < |bs| ==> Blk(c, live[c]).Apart(bs[k - shift]);
    }
    assert w > 0 ==> Ordered(bs, w);
  }

  lemma LiveWithout(live: map<nat, nat>, bp: nat, x: nat)
    requires bp in live
    ensures InLive(live, x) <==> InLive(live - {bp}, x) || Blk(bp, live[bp]).Has(x)
  {
    if a :| a in live && Blk(a, live[a]).Has(x) {
      assert a != bp ==> a in live - {bp};
    }
  }

  /** free keeps the heap whole: the block's bytes are free and nothing else changes hands. */
  lemma FreedHeap(h: map<nat, Header>, bs: seq<Blk>, live: map<nat, nat>, base: nat, heap: set<nat>, w: nat, bp: nat)
    requires HeapOk(h, bs, live, base, heap) && bp in live && FitsAt(bs, base, w, Blk(bp, live[bp]))
    ensures bs[w].a in h && bp in h && h[bs[w].a].ptr in h
    ensures HeapOk(JoinPrev(JoinNext(h, bs[w].a, bp), bs[w].a, bp), FreedList(bs, w, Blk(bp, live[bp])), live - {bp},
                   base, heap)
  {
    var b := Blk(bp, live[bp]);
    assert LiveOk(h, bs, live, base, bp);
    FreedOk(bs, base, w, b);
    FreedLinked(h, bs, base, w, b);
    forall c | c in live - {bp}
      ensures LiveOk(JoinPrev(JoinNext(h, bs[w].a, bp), bs[w].a, bp), FreedList(bs, w, b), live - {bp}, base, c)
    {
      assert LiveOk(h, bs, live, base, c);
      FreedLive(h, bs, live, base, w, bp, c);
    }
    forall x: nat ensures x in heap <==> InFree(FreedList(bs, w, b), x) || InLive(live - {bp}, x) {
      FreedHas(bs, base, w, b, x);
      LiveWithout(live, bp, x);
    }
  }

  lemma CutLive(h: map<nat, Header>, bs: seq<Blk>, live: map<nat, nat>, base: nat, k: nat, nu: nat, c: nat)
    requires ListOk(bs, base) && Linked(h, bs) && 0 < k < |bs| && 0 < nu <= bs[k].n
    requires bs[k - 1].a in h && bs[k].a in h && h[bs[k].a].size == bs[k].n
    requires c in live && LiveOk(h, bs, live, base, c)
    ensures c != Cut(bs, k, nu).a
    ensures LiveOk(CutMem(h, bs[k - 1].a, bs[k].a, nu), CutList(bs, k, nu), live[Cut(bs, k, nu).a := nu], base, c)
  {
    var b, r := Blk(c, live[c]), CutList(bs, k, nu);
    assert b.Apart(bs[k]) && b.Apart(bs[k - 1]);
    assert k - 1 > 0 ==> Ordered(bs, k - 1);
    forall i | 0 <= i < |r| ensures b.Apart(r[i]) {
      assert b.Apart(bs[if bs[k].n == nu && i >= k then i + 1 else i]);
    }
  }

  lemma CutNew(h: map<nat, Header>, bs: seq<Blk>, live: map<nat, nat>, base: nat, k: nat, nu: nat)
    requires ListOk(bs, base) && Linked(h, bs) && 0 < k < |bs| && 0 < nu <= bs[k].n
    requires bs[k - 1].a in h && bs[k].a in h && h[bs[k].a].size == bs[k].n
    requires forall c :: c in live ==> LiveOk(h, bs, live, base, c)
    ensures
      var t := Cut(bs, k, nu);
      LiveOk(CutMem(h, bs[k - 1].a, bs[k].a, nu), CutList(bs, k, nu), live[t.a := nu], base, t.a)
  {
    var t, r := Cut(bs, k, nu), CutList(bs, k, nu);
    Far(bs, base, 0, k);
    Far(bs, base, k - 1, k);
    forall i | 0 <= i < |r| ensures t.Apart(r[i]) {
      var j := if bs[k].n == nu && i >= k then i + 1 else i;
      if j < k { Far(bs, base, j, k); }
      if k < j { Far(bs, base, k, j); }
    }
    forall c | c in live && c != t.a ensures t.Apart(Blk(c, live[c])) {
      assert LiveOk(h, bs, live, base, c) && Blk(c, live[c]).Apart(bs[k]);
    }
  }

  /** malloc keeps the heap whole: the bytes it cuts off are live and nothing else changes hands. */
  lemma CutHeap(h: map<nat, Header>, bs: seq<Blk>, live: map<nat, nat>, base: nat, heap: set<nat>, k: nat, nu: nat)
    requires HeapOk(h, bs, live, base, heap) && k < |bs| && 0 < nu <= bs[k].n
    ensures k > 0 && bs[k - 1].a in h && bs[k].a in h && h[bs[k].a].size == bs[k].n && Cut(bs, k, nu).a !in live
    ensures
      var t := Cut(bs, k, nu);
      HeapOk(CutMem(h, bs[k - 1].a, bs[k].a, nu), CutList(bs, k, nu), live[t.a := nu], base, heap)
  {
    var t := Cut(bs, k, nu);
    CutOk(bs, base, k, nu);
    CutLinked(h, bs, base, k, nu);
    forall c | c in live
      ensures c != t.a && LiveOk(CutMem(h, bs[k - 1].a, bs[k].a, nu), CutList(bs, k, nu), live[t.a := nu], base, c)
    {
      assert LiveOk(h, bs, live, base, c);
      CutLive(h, bs, live, base, k, nu, c);
    }
    CutNew(h, bs, live, base, k, nu);
    assert live[t.a := nu] - {t.a} == live;
    forall x: nat ensures x in heap <==> InFree(CutList(bs, k, nu), x) || InLive(live[t.a := nu], x) {
      CutHas(bs, base, k, nu, x);
      LiveWithout(live[t.a := nu], t.a, x);
    }
  }

  predicate Within(x: nat, lo: nat, hi: nat) { lo <= x < hi }

  /** The addresses from lo to hi. */
  function Bytes(lo: nat, hi: nat): set<nat> { set x: nat | x < hi && Within(x, lo, hi) }

  function Span(b: Blk): set<nat> { Bytes(b.a, b.End()) }

  ghost predicate Below(heap: set<nat>, top: nat) { forall x: nat :: x in heap ==> x < top }

  lemma FreeBelow(h: map<nat, Header>, bs: seq<Blk>, live: map<nat, nat>, base: nat, heap: set<nat>, top: nat, k: nat)
    requires HeapOk(h, bs, live, base, heap) && base < top && Below(heap, top) && k < |bs|
    ensures bs[k].End() <= top && bs[k].a < top
  {
    assert Ordered(bs, k);
    if k > 0 {
      var x := bs[k].End() - 1;
      assert HasAt(bs, k, x) && InFree(bs, x) && x in heap;
    }
  }

  lemma LiveBelow(h: map<nat, Header>, bs: seq<Blk>, live: map<nat, nat>, base: nat, heap: set<nat>, top: nat, c: nat)
    requires HeapOk(h, bs, live, base, heap) && Below(heap, top) && c in live
    ensures Blk(c, live[c]).End() <= top && c < top
  {
    assert LiveOk(h, bs, live, base, c);
    var x := Blk(c, live[c]).End() - 1;
    assert Blk(c, live[c]).Has(x) && InLive(live, x) && x in heap;
  }

  /** A block above the whole heap joins it as a live one. */
  lemma GrownHeap(h: map<nat, Header>, bs: seq<Blk>, live: map<nat, nat>, base: nat, heap: set<nat>, b: Blk)
    requires HeapOk(h, bs, live, base, heap) && b.n > 0 && base < b.a && Below(heap, b.a)
    ensures b.a !in live
    ensures HeapOk(SetSize(h, b.a, b.n), bs, live[b.a := b.n], base, heap + Span(b))
  {
    var h', live' := SetSize(h, b.a, b.n), live[b.a := b.n];
    forall k | 0 <= k < |bs| ensures b.Apart(bs[k]) && Link(h', bs, k) {
      assert Link(h, bs, k);
      FreeBelow(h, bs, live, base, heap, b.a, k);
    }
    forall c | c in live ensures c != b.a && b.Apart(Blk(c, live[c])) && LiveOk(h', bs, live', base, c) {
      assert LiveOk(h, bs, live, base, c);
      LiveBelow(h, bs, live, base, heap, b.a, c);
    }
    assert LiveOk(h', bs, live', base, b.a);
    assert live' - {b.a} == live;
    forall x: nat ensures x in heap + Span(b) <==> InFree(bs, x) || InLive(live', x) {
      LiveWithout(live', b.a, x);
    }
  }

  /** The place behind which address x belongs. */
  ghost function Place(bs: seq<Blk>, x: nat): (w: nat)
    requires |bs| > 0 && bs[0].a < x
    ensures w < |bs| && bs[w].a < x && (w + 1 < |bs| ==> x <= bs[w + 1].a)
  {
    if bs[|bs| - 1].a < x then |bs| - 1 else Place(bs[..|bs| - 1], x)
  }

  lemma PlaceFits(h: map<nat, Header>, bs: seq<Blk>, live: map<nat, nat>, base: nat, bp: nat, i: nat)
    requires ListOk(bs, base) && bp in live && LiveOk(h, bs, live, base, bp) && i < |bs|
    requires bs[i].a < bp && (i + 1 < |bs| ==> bp < bs[i + 1].a)
    ensures FitsAt(bs, base, i, Blk(bp, live[bp]))
  {
    assert Blk(bp, live[bp]).Apart(bs[i]);
    assert i + 1 < |bs| ==> Blk(bp, live[bp]).Apart(bs[i + 1]) && Ordered(bs, i + 1);
  }

  // ---- counting ----

  ghost function FreeUnits(bs: seq<Blk>): nat {
    if bs == [] then 0 else FreeUnits(bs[..|bs| - 1]) + bs[|bs| - 1].n
  }

  ghost function Pick(keys: set<nat>): (a: nat)
    requires keys != {}
    ensures a in keys
  {
    var a :| a in keys;
    a
  }

  /** The units of the live blocks at the addresses keys. */
  ghost function LiveUnits(live: map<nat, nat>, keys: set<nat>): nat
    requires keys <= live.Keys
  {
    if keys == {} then 0 else live[Pick(keys)] + LiveUnits(live, keys - {Pick(keys)})
  }

  lemma {:induction false} BytesCount(lo: nat, n: nat)
    ensures |Bytes(lo, lo + n)| == n
  {
    if n == 0 {
      assert Bytes(lo, lo) == {};
    } else {
      BytesCount(lo, n - 1);
      assert Bytes(lo, lo + n) == Bytes(lo, lo + n - 1) + {lo + n - 1};
    }
  }

  ghost function FreeBytes(bs: seq<Blk>): set<nat> {
    if bs == [] then {} else FreeBytes(bs[..|bs| - 1]) + Span(bs[|bs| - 1])
  }

  ghost function LiveBytes(live: map<nat, nat>, keys: set<nat>): set<nat>
    requires keys <= live.Keys
  {
    if keys == {} then {} else LiveBytes(live, keys - {Pick(keys)}) + Span(Blk(Pick(keys), live[Pick(keys)]))
  }

  lemma {:induction false} FreeIs(bs: seq<Blk>, x: nat)
    ensures x in FreeBytes(bs) <==> InFree(bs, x)
  {
    if bs != [] {
      var n := |bs| - 1;
      FreeIs(bs[..n], x);
      if k: nat :| HasAt(bs, k, x) { assert k < n ==> HasAt(bs[..n], k, x); }
      if k: nat :| HasAt(bs[..n], k, x) { assert HasAt(bs, k, x); }
      assert bs[n].Has(x) ==> HasAt(bs, n, x);
    }
  }

  lemma {:induction false} LiveIs(live: map<nat, nat>, keys: set<nat>, x: nat)
    requires keys <= live.Keys
    ensures x in LiveBytes(live, keys) <==> exists a :: a in keys && Blk(a, live[a]).Has(x)
  {
    if keys != {} { LiveIs(live, keys - {Pick(keys)}, x); }
  }

  lemma {:induction false} FreeCount(bs: seq<Blk>, base: nat)
    requires ListOk(bs, base)
    ensures |FreeBytes(bs)| == UNIT * FreeUnits(bs)
  {
    var n := |bs| - 1;
    BytesCount(bs[n].a, UNIT * bs[n].n);
    if n == 0 {
      assert bs[..n] == [];
    } else {
      forall k | 0 <= k < n ensures Ordered(bs[..n], k) { assert Ordered(bs, k); }
      FreeCount(bs[..n], base);
      forall x | x in FreeBytes(bs[..n]) ensures x !in Span(bs[n]) {
        FreeIs(bs[..n], x);
        var k: nat :| HasAt(bs[..n], k, x);
        Far(bs, base, k, n);
      }
      assert FreeBytes(bs[..n]) !! Span(bs[n]);
    }
  }

  lemma RestApart(h: map<nat, Header>, bs: seq<Blk>, live: map<nat, nat>, base: nat, keys: set<nat>, a: nat)
    requires keys <= live.Keys && a in live && a !in keys && LiveOk(h, bs, live, base, a)
    ensures LiveBytes(live, keys) !! Span(Blk(a, live[a]))
  {
    forall x | x in LiveBytes(live, keys) ensures x !in Span(Blk(a, live[a])) { LiveIs(live, keys, x); }
  }

  lemma {:induction false} LiveCount(h: map<nat, Header>, bs: seq<Blk>, live: map<nat, nat>, base: nat, keys: set<nat>)
    requires keys <= live.Keys && forall a :: a in keys ==> LiveOk(h, bs, live, base, a)
    ensures |LiveBytes(live, keys)| == UNIT * LiveUnits(live, keys)
  {
    if keys != {} {
      var a := Pick(keys);
      RestApart(h, bs, live, base, keys - {a}, a);
      LiveCount(h, bs, live, base, keys - {a});
      BytesCount(a, UNIT * live[a]);
    }
  }

  lemma HeapIs(h: map<nat, Header>, bs: seq<Blk>, live: map<nat, nat>, base: nat, heap: set<nat>)
    requires HeapOk(h, bs, live, base, heap)
    ensures heap == FreeBytes(bs) + LiveBytes(live, live.Keys) && FreeBytes(bs) !! LiveBytes(live, live.Keys)
  {
    forall x: nat
      ensures x in heap <==> x in FreeBytes(bs) || x in LiveBytes(live, live.Keys)
      ensures !(x in FreeBytes(bs) && x in LiveBytes(live, live.Keys))
    {
      FreeIs(bs, x);
      LiveIs(live, live.Keys, x);
      if InFree(bs, x) { NotBoth(h, bs, live, base, x); }
    }
  }

  /** No unit is lost or invented: the bytes of the heap are those of the free and the live blocks. */
  lemma Conservation(h: map<nat, Header>, bs: seq<Blk>, live: map<nat, nat>, base: nat, heap: set<nat>)
    requires HeapOk(h, bs, live, base, heap)
    ensures |heap| == UNIT * (FreeUnits(bs) + LiveUnits(live, live.Keys))
  {
    HeapIs(h, bs, live, base, heap);
    FreeCount(bs, base);
    LiveCount(h, bs, live, base, live.Keys);
  }

  /** No byte is in a free and in a live block. */
  lemma NotBoth(h: map<nat, Header>, bs: seq<Blk>, live: map<nat, nat>, base: nat, x: nat)
    requires ListOk(bs, base) && (forall a :: a in live ==> LiveOk(h, bs, live, base, a)) && InFree(bs, x)
    ensures !InLive(live, x)
  {
    var k: nat :| HasAt(bs, k, x);
    forall a | a in live ensures !Blk(a, live[a]).Has(x) {
      assert LiveOk(h, bs, live, base, a) && Blk(a, live[a]).Apart(bs[k]);
    }
  }

  // ---- sbrk ----

  /** The argument of sbrk: a 64-bit product passed as a 32-bit int. */
  function SbrkArg(want: nat): int {
    var u := UNIT * want % (2 * INT_LIMIT);
    if u >= INT_LIMIT then u - 2 * INT_LIMIT else u
  }

  lemma SbrkExact(want: nat)
    requires UNIT * want < 4 * INT_LIMIT
    ensures SbrkArg(want) == UNIT * want <==> UNIT * want < INT_LIMIT
    ensures SbrkArg(want) <= UNIT * want
  {
  }

  /** The largest request that can reach sbrk undamaged. */
  lemma RequestLimit(nbytes: nat)
    ensures UNIT * Wanted(Units(nbytes)) < INT_LIMIT <==> nbytes <= INT_LIMIT - 2 * UNIT
  {
  }

  /**
   What is left of granted, and what is new, after sbrk(n) in a process of top bytes: it
   grows by n, or shrinks unless its unsigned 32-bit size would wrap.
   */
  function Sbrk(granted: set<nat>, top: nat, n: int): set<nat> {
    if n >= 0 then granted + Bytes(top, top + n)
    else if top + n >= 0 then set x | x in granted && x < top + n
    else granted
  }

  function Wanted(nu: nat): nat { if nu < MIN_UNITS then MIN_UNITS else nu }

  /** sbrk returns -1: there is no memory for a larger process. */
  predicate Refused(nu: nat, room: bool) { SbrkArg(Wanted(nu)) > 0 && !room }

  /** p->sz after sbrk(n) in a process of top bytes. */
  function NewTop(top: nat, n: int): nat { if top + n >= 0 then top + n else top }

  function PgUp(x: nat): nat { (x + PGSIZE - 1) / PGSIZE * PGSIZE }

  /** morecore's first store, of the size at the old break, is behind the last page of the process. */
  predicate Faults(nu: nat, top: nat) { top + SIZE_END > PgUp(NewTop(top, SbrkArg(Wanted(nu)))) }

  /** morecore moves the break by the units asked for, and by 64 KiB at least, up to 2^31 bytes. */
  lemma GrowsBy(nu: nat, top: nat)
    requires UNIT * nu < INT_LIMIT
    ensures NewTop(top, SbrkArg(Wanted(nu))) == top + if UNIT * nu < 0x1_0000 then 0x1_0000 else UNIT * nu
  {
    SbrkExact(Wanted(nu));
  }

  /** A request that reaches sbrk undamaged does not fault. */
  lemma FaultsOnlyDamaged(nu: nat, top: nat)
    requires UNIT * Wanted(nu) < INT_LIMIT
    ensures !Faults(nu, top)
  {
  }

  /** How morecore ends: sbrk refuses, the process is killed, or the list has a new block. */
  datatype Grant = Refusal | Killed | Growth

  ghost predicate Fits(bs: seq<Blk>, nu: nat) { exists k: nat :: k < |bs| && bs[k].n >= nu }

  /** No block after place at and before place i, around the circle, has nu units. */
  ghost predicate Seen(bs: seq<Blk>, at: nat, i: nat, nu: nat) {
    forall u :: 0 <= u < |bs| && (if at < i then at < u < i else u > at || u < i) ==> bs[u].n < nu
  }

  /**
   malloc's choice: block k is the first of nu units or more after place at; the end of it, at a,
   is cut off, and the next search starts where this one ended.
   */
  ghost predicate NextFitAt(bs: seq<Blk>, at: nat, bs': seq<Blk>, at': nat, nu: nat, a: nat, k: nat) {
    && 0 < k < |bs| && bs[k].n >= nu && Seen(bs, at, k, nu)
    && a == bs[k].a + UNIT * (bs[k].n - nu) && bs' == CutList(bs, k, nu) && at' == k - 1
  }

  /** The outer quantifier has one instance and keeps the choice folded. */
  ghost predicate NextFit(bs: seq<Blk>, at: nat, bs': seq<Blk>, at': nat, nu: nat, a: nat) {
    forall j: nat :: j == at ==> FitsNext(bs, j, bs', at', nu, a)
  }

  ghost predicate FitsNext(bs: seq<Blk>, at: nat, bs': seq<Blk>, at': nat, nu: nat, a: nat) {
    exists k :: NextFitAt(bs, at, bs', at', nu, a, k)
  }

  /** free's place for b: behind the last free block below it, where the next search starts. */
  ghost predicate FreedAt(bs: seq<Blk>, base: nat, bs': seq<Blk>, at': nat, b: Blk) {
    FitsAt(bs, base, at', b) && bs' == FreedList(bs, at', b)
  }

  /** The steps from place i to place at. */
  ghost function Left(n: nat, at: nat, i: nat): nat
    requires at < n && i < n
  {
    if i <= at then at - i else n - i + at
  }

  ghost function Step(n: nat, i: nat): nat { if i + 1 < n then i + 1 else 0 }

  class Allocator {
    const base: nat                  // the address of the list's own header
    var hdr: map<nat, Header>        // the headers in memory, by address
    var freep: nat
    var brk: nat                     // p->sz: where the memory of the process ends
    ghost var bs: seq<Blk>
    ghost var at: nat
    ghost var live: map<nat, nat>
    ghost var heap: set<nat>         // the bytes of the free and live blocks
    ghost var granted: set<nat>      // the bytes that morecore got from sbrk

    ghost predicate Valid()
      reads this
    {
      && base > 0
      && if freep == 0 then bs == [] && live == map[] && heap == {}
         else at < |bs| && bs[at].a == freep && HeapOk(hdr, bs, live, base, heap)
    }

    /** The allocator hands out only memory that the process has. */
    ghost predicate Backed()
      reads this
    {
      heap == granted
    }

    /** morecore has added its block at top to the heap, and sbrk what it was asked for. */
    ghost predicate Grown(heap0: set<nat>, granted0: set<nat>, nu: nat, top: nat)
      reads this
    {
      && heap == heap0 + Span(Blk(top, Wanted(nu))) && granted == Sbrk(granted0, top, SbrkArg(Wanted(nu)))
      && brk == NewTop(top, SbrkArg(Wanted(nu)))
    }

    constructor (base: nat, brk: nat)
      requires base > 0
      ensures Valid() && Backed() && live == map[] && heap == {} && bs == [] && this.base == base && this.brk == brk
    {
      this.base, this.brk := base, brk;
      hdr, freep := map[], 0;
      bs, at, live, heap, granted := [], 0, map[], {}, {};
    }

    /** The search loop of free. */
    method FindPlace(bp: nat) returns (p: nat, ghost w: nat)
      requires Valid() && freep != 0 && bp in live
      ensures FitsAt(bs, base, w, Blk(bp, live[bp])) && 0 < p == bs[w].a && p in hdr && hdr[p].ptr in hdr
    {
      assert LiveOk(hdr, bs, live, base, bp);
      ghost var goal := Place(bs, bp);
      NotThere(hdr, bs, live, base, bp);
      p, w := freep, at;
      Around(hdr, bs, base, w);
      while !(bp > p && bp < hdr[p].ptr)
        invariant w < |bs| && p == bs[w].a && p in hdr && hdr[p].ptr == After(bs, w).a && hdr[p].ptr in hdr
        decreases Left(|bs|, goal, w)
      {
        Circle(bs, base, w, bp, goal);
        if p >= hdr[p].ptr && (bp > p || bp < hdr[p].ptr) {
          break;
        }
        p, w := hdr[p].ptr, Step(|bs|, w);
        Around(hdr, bs, base, w);
      }
      Circle(bs, base, w, bp, goal);
      PlaceFits(hdr, bs, live, base, bp, w);
      if 0 < w { Far(bs, base, 0, w); }
    }

    /** free(ap) of a block that malloc returned. */
    method Free(ap: nat)
      requires Valid() && ap >= UNIT && ap - UNIT in live
      modifies this
      ensures Valid() && freep != 0
      ensures live == old(live) - {ap - UNIT} && heap == old(heap) && granted == old(granted) && brk == old(brk)
      ensures Fits(bs, old(live)[ap - UNIT]) && FreedAt(old(bs), base, bs, at, Blk(ap - UNIT, old(live)[ap - UNIT]))
    {
      var bp := ap - UNIT;
      var p;
      ghost var w;
      p, w := FindPlace(bp);
      FreedHeap(hdr, bs, live, base, heap, w, bp);
      FreedFits(bs, base, w, Blk(bp, live[bp]));
      hdr := JoinNext(hdr, p, bp);
      hdr := JoinPrev(hdr, p, bp);
      freep := p;
      bs, at, live := FreedList(bs, w, Blk(bp, live[bp])), w, live - {bp};
    }

    /** morecore. */
    method Morecore(nu: nat, room: bool) returns (g: Grant)
      requires Valid() && freep != 0 && nu > 0 && base < brk && Below(heap, brk)
      modifies this
      ensures Valid() && freep != 0 && live == old(live)
      ensures g == if Refused(nu, room) then Refusal else if Faults(nu, old(brk)) then Killed else Growth
      ensures g != Growth ==>
        bs == old(bs) && at == old(at) && hdr == old(hdr) && freep == old(freep) && heap == old(heap)
      ensures g.Refusal? ==> granted == old(granted) && brk == old(brk)
      ensures g.Growth? ==> Fits(bs, nu) && Grown(old(heap), old(granted), nu, old(brk))
    {
      var want, top := Wanted(nu), brk;
      var n := SbrkArg(want);
      if n > 0 && !room {
        return Refusal;
      }
      brk := NewTop(top, n);
      granted := Sbrk(granted, top, n);
      if top + SIZE_END > PgUp(brk) {
        return Killed;
      }
      AddBlock(top, want);
      g := Growth;
    }

    /** The new memory becomes a live block, which is then freed. */
    method AddBlock(top: nat, want: nat)
      requires Valid() && freep != 0 && want > 0 && base < top && Below(heap, top)
      modifies this
      ensures Valid() && freep != 0 && live == old(live) && granted == old(granted) && brk == old(brk)
      ensures heap == old(heap) + Span(Blk(top, want)) && Fits(bs, want)
    {
      GrownHeap(hdr, bs, live, base, heap, Blk(top, want));
      hdr := SetSize(hdr, top, want);
      live, heap := live[top := want], heap + Span(Blk(top, want));
      Free(top + UNIT);
      assert live == old(live);
    }

    /** malloc's first use: the list is the base header alone. */
    method Start()
      requires Valid()
      modifies this
      ensures Valid() && freep != 0 && live == old(live) && heap == old(heap) && granted == old(granted)
        && brk == old(brk)
      ensures forall nu: nat :: nu > 0 ==> (Fits(bs, nu) <==> Fits(old(bs), nu))
      ensures old(freep) != 0 ==> bs == old(bs) && at == old(at)
    {
      if freep == 0 {
        hdr, freep := hdr[base := Header(base, 0)], base;
        bs, at := [Blk(base, 0)], 0;
        assert Link(hdr, bs, 0);
        forall x: nat ensures !InFree(bs, x) && !InLive(live, x) { }
      }
    }

    /** malloc's search, since the list was bs0 and the break top: at block k, and whether morecore has been called. */
    ghost predicate Looking(bs0: seq<Blk>, at0: nat, live0: map<nat, nat>, heap0: set<nat>, granted0: set<nat>,
                            nu: nat, top: nat,
                            room: bool, prevp: nat, p: nat, k: nat, grown: bool)
      reads this
    {
      && Valid() && freep != 0 && live == live0 && k < |bs| && At(hdr, bs, k, prevp, p) && Seen(bs, at, k, nu)
      && if !grown then bs == bs0 && at == at0 && heap == heap0 && granted == granted0 && brk == top
         else
           && !Fits(bs0, nu) && !Refused(nu, room) && !Faults(nu, top) && Fits(bs, nu)
           && Grown(heap0, granted0, nu, top)
    }

    /** malloc's search has failed, since the list was bs0. */
    ghost predicate Failed(bs0: seq<Blk>, live0: map<nat, nat>, heap0: set<nat>, granted0: set<nat>, nu: nat, top: nat,
                           room: bool, g: Grant)
      reads this
    {
      && Valid() && freep != 0 && live == live0 && heap == heap0 && !Fits(bs0, nu) && g != Growth
      && if g.Refusal? then Refused(nu, room) && granted == granted0 && brk == top
         else !Refused(nu, room) && Faults(nu, top)
    }

    /** A turn of the search, at a block that is too small. */
    method SearchTurn(nu: nat, room: bool, prevp: nat, p: nat, ghost k: nat, ghost grown: bool, ghost top: nat,
                      ghost bs0: seq<Blk>, ghost at0: nat, ghost heap0: set<nat>, ghost granted0: set<nat>)
      returns (g: Grant, prevp': nat, p': nat, ghost k': nat, ghost grown': bool)
      requires Looking(bs0, at0, live, heap0, granted0, nu, top, room, prevp, p, k, grown) && hdr[p].size < nu
      requires nu > 0 && base < top && Below(heap0, top)
      modifies this
      ensures g.Growth? ==> Looking(bs0, at0, old(live), heap0, granted0, nu, top, room, prevp', p', k', grown')
      ensures g.Growth? ==>
        if grown' == grown then bs == old(bs) && at == old(at) && Left(|bs|, at, k') < Left(|bs|, at, k) else grown'
      ensures !g.Growth? ==> Failed(bs0, old(live), heap0, granted0, nu, top, room, g)
    {
      prevp', p', k', grown' := prevp, p, k, grown;
      if p == freep {
        NoneFits(bs, base, at, k, nu);
        g := Morecore(nu, room);
        if g != Growth {
          return;
        }
        p', k', grown' := freep, at, true;
        Around(hdr, bs, base, k');
      }
      g := Growth;
      SeenStep(bs, at, k', nu);
      prevp', p', k' := p', hdr[p'].ptr, Step(|bs|, k');
      Around(hdr, bs, base, k');
    }

    /** The search loop of malloc: unless it fails, p, behind prevp, is a free block of nu units or more. */
    method Search(nu: nat, room: bool) returns (g: Grant, prevp: nat, p: nat, ghost k: nat)
      requires Valid() && freep != 0 && nu > 0 && base < brk && Below(heap, brk)
      modifies this
      ensures Valid() && freep != 0 && live == old(live)
      ensures g == if Fits(old(bs), nu) then Growth
                   else if Refused(nu, room) then Refusal else if Faults(nu, old(brk)) then Killed else Growth
      ensures g.Growth? ==> 0 < k < |bs| && bs[k].n >= nu && p == bs[k].a && prevp == bs[k - 1].a
      ensures Fits(old(bs), nu) ==> bs == old(bs) && at == old(at) && Seen(bs, at, k, nu)
      ensures Fits(old(bs), nu) || !g.Growth? ==> heap == old(heap)
      ensures Fits(old(bs), nu) || g.Refusal? ==> granted == old(granted) && brk == old(brk)
      ensures !Fits(old(bs), nu) && g.Growth? ==> Grown(old(heap), old(granted), nu, old(brk))
    {
      prevp, k := freep, Step(|bs|, at);
      Around(hdr, bs, base, at);
      p := hdr[prevp].ptr;
      ghost var grown := false;
      Around(hdr, bs, base, k);
      while hdr[p].size < nu
        invariant Looking(old(bs), old(at), old(live), old(heap), old(granted), nu, old(brk), room, prevp, p, k, grown)
        decreases if grown then 0 else 1, Left(|bs|, at, k)
      {
        g, prevp, p, k, grown :=
          SearchTurn(nu, room, prevp, p, k, grown, old(brk), old(bs), old(at), old(heap), old(granted));
        if g != Growth {
          return;
        }
      }
      assert Ordered(bs, k);
      g := Growth;
    }

    /** malloc's block: all of p, or the end of it. */
    method TakeBlock(nunits: nat, prevp: nat, p: nat, ghost k: nat) returns (ap: nat)
      requires Valid() && freep != 0 && 0 < k < |bs| && 0 < nunits <= bs[k].n && p == bs[k].a && prevp == bs[k - 1].a
      modifies this
      ensures Valid() && freep != 0 && heap == old(heap) && granted == old(granted) && brk == old(brk)
      ensures ap > UNIT && ap - UNIT !in old(live) && live == old(live)[ap - UNIT := nunits]
      ensures
        ap - UNIT == old(bs)[k].a + UNIT * (old(bs)[k].n - nunits) && bs == CutList(old(bs), k, nunits) && at == k - 1
    {
      CutHeap(hdr, bs, live, base, heap, k, nunits);
      FarFromStart(bs, base, k);
      assert CutList(bs, k, nunits)[k - 1] == bs[k - 1];
      ghost var hdr' := CutMem(hdr, prevp, p, nunits);
      var t := p;
      if hdr[p].size == nunits {
        hdr := hdr[prevp := hdr[prevp].(ptr := hdr[p].ptr)];
      } else {
        hdr := hdr[p := hdr[p].(size := hdr[p].size - nunits)];
        t := p + UNIT * hdr[p].size;
        hdr := SetSize(hdr, t, nunits);
      }
      assert hdr == hdr';
      freep := prevp;
      live := live[Cut(bs, k, nunits).a := nunits];
      bs, at := CutList(bs, k, nunits), k - 1;
      ap := t + UNIT;
    }

    /**
     malloc; room tells whether sbrk can grow the process.
     A process is smaller than 2^31 bytes, as physical memory is (kernel/memlayout.h:48).
     None is the end of the process, by a fault in morecore. Otherwise the result is 0 or
     the address behind the header of a new block, and the heap is still memory of the
     process exactly if sbrk was not needed, refused, or was asked for the whole size.
     */
    method Malloc(nbytes: nat, room: bool) returns (r: Option<nat>)
      requires Valid() && nbytes < 2 * INT_LIMIT && base < brk < INT_LIMIT && Below(heap, brk)
      modifies this
      ensures Valid() && nbytes <= UNIT * (Units(nbytes) - 1) < nbytes + UNIT
      ensures r == None <==>
        !Fits(old(bs), Units(nbytes)) && !Refused(Units(nbytes), room) && Faults(Units(nbytes), old(brk))
      ensures r == Some(0) <==> !Fits(old(bs), Units(nbytes)) && Refused(Units(nbytes), room)
      ensures r == None || r == Some(0) ==> live == old(live) && heap == old(heap)
      ensures r.Some? && r.value != 0 ==>
        && r.value >= UNIT && r.value - UNIT !in old(live)
        && live == old(live)[r.value - UNIT := Units(nbytes)]
      ensures Fits(old(bs), Units(nbytes)) || r == Some(0) ==>
        heap == old(heap) && granted == old(granted) && brk == old(brk)
      ensures Fits(old(bs), Units(nbytes)) ==>
        r.Some? && r.value >= UNIT && NextFit(old(bs), old(at), bs, at, Units(nbytes), r.value - UNIT)
      ensures r.Some? && !Fits(old(bs), Units(nbytes)) && r.value != 0 ==>
        Grown(old(heap), old(granted), Units(nbytes), old(brk))
      ensures r.Some? && old(Backed()) ==>
        (Backed() <==>
         Fits(old(bs), Units(nbytes)) || Refused(Units(nbytes), room) || UNIT * Wanted(Units(nbytes)) < INT_LIMIT)
    {
      var nunits := Units(nbytes);
      Start();
      if heap == granted { GrantBacked(heap, brk, Wanted(nunits)); }
      var g, prevp, p;
      ghost var k;
      g, prevp, p, k := Search(nunits, room);
      if g == Refusal {
        return Some(0);
      }
      if g == Killed {
        return None;
      }
      ghost var bs1, at1 := bs, at;
      var ap := TakeBlock(nunits, prevp, p, k);
      assert Seen(bs1, at1, k, nunits) ==> NextFitAt(bs1, at1, bs, at, nunits, ap - UNIT, k);
      r := Some(ap);
    }
  }

  /** malloc(0xFFFFFFFF) asks sbrk for 16 bytes and hands out a block of more than 2^32. */
  method UnbackedBlock() returns (a: Allocator, r: Option<nat>)
    ensures a.Valid() && r.Some? && r.value != 0 && r.value - UNIT in a.live && !a.Backed()
    ensures UNIT * a.live[r.value - UNIT] == 0x1_0000_0010
  {
    a := new Allocator(UNIT, PGSIZE);
    assert Units(0xFFFF_FFFF) == 0x1000_0001 && SbrkArg(0x1000_0001) == 16;
    r := a.Malloc(0xFFFF_FFFF, true);
  }

  /** malloc(2^31), in a process that ends at a page boundary, ends the process. */
  method FaultingRequest() returns (a: Allocator, r: Option<nat>)
    ensures a.Valid() && r == None
  {
    a := new Allocator(UNIT, PGSIZE);
    assert Units(INT_LIMIT) == 0x800_0001 && SbrkArg(0x800_0001) == 16 - INT_LIMIT;
    r := a.Malloc(INT_LIMIT, true);
  }

  // ---- any sequence of calls ----

  /**
   malloc, and whether sbrk would find memory; free of a block, by its place among those
   held; and sbrk by the program itself.
   */
  datatype Call = Alloc(nbytes: nat, room: bool) | Release(i: nat) | Extend(n: nat)

  /** The addresses of different live blocks. */
  ghost predicate Held(live: map<nat, nat>, aps: seq<nat>) {
    && (forall i :: 0 <= i < |aps| ==> aps[i] >= UNIT && aps[i] - UNIT in live)
    && forall i, j :: 0 <= i < j < |aps| ==> aps[i] != aps[j]
  }

  lemma HeldMore(live: map<nat, nat>, aps: seq<nat>, ap: nat, n: nat)
    requires Held(live, aps) && ap >= UNIT && ap - UNIT !in live
    ensures Held(live[ap - UNIT := n], aps + [ap])
  {
  }

  lemma HeldLess(live: map<nat, nat>, aps: seq<nat>, i: nat)
    requires Held(live, aps) && i < |aps|
    ensures Held(live - {aps[i] - UNIT}, aps[..i] + aps[i + 1..])
  {
    var rest := aps[..i] + aps[i + 1..];
    forall j | 0 <= j < |rest| ensures rest[j] == aps[if j < i then j else j + 1] { }
  }

  lemma BelowGrown(heap: set<nat>, top: nat, want: nat)
    requires Below(heap, top)
    ensures Below(heap + Span(Blk(top, want)), top + UNIT * want)
  {
  }

  /** The allocator between two calls, in a process whose program holds the blocks aps. */
  ghost predicate Between(a: Allocator, aps: seq<nat>)
    reads a
  {
    a.Valid() && a.Backed() && a.base < a.brk < INT_LIMIT && Below(a.heap, a.brk) && Held(a.live, aps)
  }

  /** A request of a program; sbrk refuses what is more than a process can have. */
  method Request(a: Allocator, nbytes: nat, room: bool, aps: seq<nat>) returns (aps': seq<nat>)
    requires Between(a, aps) && nbytes <= INT_LIMIT - 2 * UNIT
    modifies a
    ensures Between(a, aps')
  {
    var want := Wanted(Units(nbytes));
    RequestLimit(nbytes);
    FaultsOnlyDamaged(Units(nbytes), a.brk);
    BelowGrown(a.heap, a.brk, want);
    ghost var live := a.live;
    var r := a.Malloc(nbytes, room && a.brk + UNIT * want < INT_LIMIT);
    aps' := aps;
    if r.value != 0 {
      HeldMore(live, aps, r.value, Units(nbytes));
      aps' := aps + [r.value];
    }
  }

  method Give(a: Allocator, i: nat, aps: seq<nat>) returns (aps': seq<nat>)
    requires Between(a, aps) && i < |aps|
    modifies a
    ensures Between(a, aps')
  {
    HeldLess(a.live, aps, i);
    a.Free(aps[i]);
    aps' := aps[..i] + aps[i + 1..];
  }

  lemma Whole(a: Allocator)
    requires a.Valid() && a.freep != 0
    ensures |a.heap| == UNIT * (FreeUnits(a.bs) + LiveUnits(a.live, a.live.Keys))
  {
    Conservation(a.hdr, a.bs, a.live, a.base, a.heap);
  }

  /**
   Any sequence of requests below the limit, of frees of blocks that malloc returned and
   of sbrk by the program, from the first call on: the heap stays whole, all of it is
   memory of the process, and no unit is lost.
   */
  method Session(base: nat, start: nat, calls: seq<Call>) returns (a: Allocator, aps: seq<nat>)
    requires 0 < base < start < INT_LIMIT
    requires forall i :: 0 <= i < |calls| && calls[i].Alloc? ==> calls[i].nbytes <= INT_LIMIT - 2 * UNIT
    ensures a.Valid() && a.Backed() && Held(a.live, aps)
    ensures a.freep != 0 ==> |a.heap| == UNIT * (FreeUnits(a.bs) + LiveUnits(a.live, a.live.Keys))
  {
    a := new Allocator(base, start);
    aps := [];
    for i := 0 to |calls|
      invariant fresh(a) && Between(a, aps)
    {
      match calls[i]
      case Alloc(nbytes, room) => aps := Request(a, nbytes, room, aps);
      case Release(k) => if k < |aps| { aps := Give(a, k, aps); }
      case Extend(n) => if a.brk + n < INT_LIMIT { a.brk := a.brk + n; }
    }
    if a.freep != 0 { Whole(a); }
  }

  lemma FarFromStart(bs: seq<Blk>, base: nat, k: nat)
    requires ListOk(bs, base) && 0 < k < |bs|
    ensures base <= bs[k - 1].a && base < bs[k].a
  {
    Far(bs, base, 0, k);
    if 0 < k - 1 { Far(bs, base, 0, k - 1); }
  }

  /** sbrk gives exactly the block that morecore adds to the list if and only if its size is an int. */
  lemma GrantBacked(heap: set<nat>, top: nat, want: nat)
    requires Below(heap, top) && want > 0 && UNIT * want < 4 * INT_LIMIT
    ensures heap + Span(Blk(top, want)) == Sbrk(heap, top, SbrkArg(want)) <==> UNIT * want < INT_LIMIT
  {
    SbrkExact(want);
    if UNIT * want >= INT_LIMIT {
      var x := top + UNIT * want - 1;
      assert x in Span(Blk(top, want)) && x !in Sbrk(heap, top, SbrkArg(want));
    } else {
      assert SbrkArg(want) == UNIT * want && Bytes(top, top + SbrkArg(want)) == Span(Blk(top, want));
    }
  }

  /** p is block k and prevp the one before it on the circle. */
  ghost predicate At(h: map<nat, Header>, bs: seq<Blk>, k: nat, prevp: nat, p: nat)
    requires k < |bs|
  {
    p == bs[k].a && p in h && h[p].size == bs[k].n && h[p].ptr in h && h[p].ptr == After(bs, k).a
    && prevp == bs[if k > 0 then k - 1 else |bs| - 1].a
  }

  lemma SeenStep(bs: seq<Blk>, at: nat, k: nat, nu: nat)
    requires at < |bs| && k < |bs| && (k == at || (Seen(bs, at, k, nu) && bs[k].n < nu))
    ensures Seen(bs, at, Step(|bs|, k), nu)
    ensures k != at ==> Left(|bs|, at, Step(|bs|, k)) < Left(|bs|, at, k)
  {
  }

  /** Back at freep, malloc has seen every block. */
  lemma NoneFits(bs: seq<Blk>, base: nat, at: nat, k: nat, nu: nat)
    requires ListOk(bs, base) && at < |bs| && k < |bs| && bs[at].a == bs[k].a && Seen(bs, at, k, nu) && bs[k].n < nu
    ensures k == at && !Fits(bs, nu)
  {
    if at < k { Far(bs, base, at, k); }
    if k < at { Far(bs, base, k, at); }
  }

  /** The address of a live block is not that of a free one. */
  lemma NotThere(h: map<nat, Header>, bs: seq<Blk>, live: map<nat, nat>, base: nat, bp: nat)
    requires ListOk(bs, base) && bp in live && LiveOk(h, bs, live, base, bp)
    ensures forall k :: 0 <= k < |bs| ==> bs[k].a != bp
  {
    forall k | 0 <= k < |bs| ensures bs[k].a != bp {
      assert Ordered(bs, k) && Blk(bp, live[bp]).Apart(bs[k]);
    }
  }

  lemma Around(h: map<nat, Header>, bs: seq<Blk>, base: nat, w: nat)
    requires ListOk(bs, base) && Linked(h, bs) && w < |bs|
    ensures bs[w].a in h && h[bs[w].a].ptr == After(bs, w).a && h[bs[w].a].size == bs[w].n && h[bs[w].a].ptr in h
    ensures After(bs, w) == bs[Step(|bs|, w)]
  {
    assert Link(h, bs, w) && Link(h, bs, Step(|bs|, w));
  }

  /** free's search stops at the right place, and nowhere else. */
  lemma Circle(bs: seq<Blk>, base: nat, w: nat, bp: nat, goal: nat)
    requires ListOk(bs, base) && w < |bs| && base < bp && (forall k :: 0 <= k < |bs| ==> bs[k].a != bp)
    requires goal == Place(bs, bp)
    ensures
      var p, q := bs[w].a, After(bs, w).a;
      && (w == goal <==> (bp > p && bp < q) || (p >= q && (bp > p || bp < q)))
      && (w == goal ==> bs[w].a < bp && (w + 1 < |bs| ==> bp < bs[w + 1].a))
  {
    if w < goal { Far(bs, base, w, goal); }
    if goal < w { Far(bs, base, goal, w); }
    if w + 1 < goal { Far(bs, base, w + 1, goal); }
    if goal + 1 < w { Far(bs, base, goal + 1, w); }
    if 0 < w { Far(bs, base, 0, w); }
    if w + 1 < |bs| { Far(bs, base, w, w + 1); }
  }

  lemma FreedFits(bs: seq<Blk>, base: nat, w: nat, b: Blk)
    requires FitsAt(bs, base, w, b)
    ensures Fits(FreedList(bs, w, b), b.n) && w < |FreedList(bs, w, b)| && FreedList(bs, w, b)[w].a == bs[w].a
  {
    var r := FreedList(bs, w, b);
    assert r[if bs[w].End() == b.a then w else w + 1].n >= b.n;
  }
}
