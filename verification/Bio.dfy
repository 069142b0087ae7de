/**
 The buffer cache (kernel/bio.c): NBUF buffers on a circular doubly linked list
 in order of last use, holding copies of the blocks of one device.

 The buffers are an array and the list links are indices into it; index NBUF is
 the list head. A client sees View: one flat sequence of blocks, whose n-th
 entry is the cached copy of block n if there is one and the disk's otherwise.
 */
module Bio {
  import opened Block
  import opened Common
  import P = CacheProtocol

  const NBUF := 30
  const ROOTDEV := 1
  const HEAD := NBUF

  /** One disk write. */
  datatype Write<D> = Write(blockno: nat, data: D)

  datatype Buf = Buf(valid: bool, dev: nat, blockno: nat, refcnt: nat, locked: bool, data: Data)
  {
    predicate Caches(n: nat) { dev == ROOTDEV && blockno == n }
  }

  /** The index of the buffer of block n, or |bufs|. */
  ghost function Find(bufs: seq<Buf>, n: nat): (i: nat)
    ensures i <= |bufs|
    ensures i < |bufs| ==> bufs[i].Caches(n)
    ensures i == |bufs| ==> forall k :: 0 <= k < |bufs| ==> !bufs[k].Caches(n)
  {
    if k: nat :| k < |bufs| && bufs[k].Caches(n) then k else |bufs|
  }

  /**
   The buffers and the disk. Two ghost parts say what refcnt counts: the bpins
   of each block and the set of blocks whose buffer is locked.
   */
  datatype Store = Store(bufs: seq<Buf>, disk: Disk, ghost pins: seq<nat>, ghost locks: set<nat>)

  /** What block n reads as. */
  ghost function ViewAt(s: Store, n: nat): Data
    requires n < |s.disk|
  {
    var i := Find(s.bufs, n);
    if i < |s.bufs| && s.bufs[i].valid then s.bufs[i].data else s.disk[n]
  }

  /** The flat map that buffers and disk stand for. */
  ghost function View(s: Store): (v: Disk)
    ensures |v| == |s.disk| && forall n :: 0 <= n < |v| ==> v[n] == ViewAt(s, n)
  {
    seq(|s.disk|, n requires 0 <= n < |s.disk| => ViewAt(s, n))
  }

  /** No block has two buffers. */
  ghost predicate NoTwins(bufs: seq<Buf>) {
    forall i, j, n :: 0 <= i < |bufs| && 0 <= j < |bufs| && bufs[i].Caches(n) && bufs[j].Caches(n) ==> i == j
  }

  /**
   A buffer in use counts its block's pins plus one for the holder of its lock;
   a valid buffer that nobody refers to equals its disk block.
   */
  ghost predicate BufOk(b: Buf, disk: Disk, pins: seq<nat>, locks: set<nat>)
    requires |pins| == |disk|
  {
    if b.dev == 0 then !b.valid && b.refcnt == 0 && !b.locked
    else
      && b.dev == ROOTDEV && b.blockno < |disk|
      && b.refcnt == pins[b.blockno] + (if b.locked then 1 else 0)
      && b.locked == (b.blockno in locks)
      && (b.valid && b.refcnt == 0 ==> b.data == disk[b.blockno])
  }

  ghost predicate Good(s: Store) {
    && |s.bufs| == NBUF && |s.pins| == |s.disk|
    && NoTwins(s.bufs)
    && (forall i :: 0 <= i < |s.bufs| ==> BufOk(s.bufs[i], s.disk, s.pins, s.locks))
    // a pinned or locked block has a buffer
    && (forall n :: 0 <= n < |s.disk| && s.pins[n] > 0 ==> Find(s.bufs, n) < NBUF)
    && (forall n :: n in s.locks ==> Find(s.bufs, n) < NBUF)
  }

  type Cache = s: Store | Good(s) ghost witness Store(seq(NBUF, _ => UNUSED), [], [], {})

  const UNUSED := Buf(false, 0, 0, 0, false, Zeros())

  lemma FindUnique(bufs: seq<Buf>, i: nat)
    requires NoTwins(bufs) && i < |bufs| && bufs[i].dev == ROOTDEV
    ensures Find(bufs, bufs[i].blockno) == i
  {
  }

  lemma FindSame(bufs: seq<Buf>, i: nat, b: Buf)
    requires NoTwins(bufs) && i < |bufs|
    requires b.dev == bufs[i].dev && b.blockno == bufs[i].blockno
    ensures NoTwins(bufs[i := b])
    ensures forall n :: Find(bufs[i := b], n) == Find(bufs, n)
  {
    var next := bufs[i := b];
    assert forall k, n :: 0 <= k < |bufs| ==> next[k].Caches(n) == bufs[k].Caches(n);
    forall n ensures Find(next, n) == Find(bufs, n) {
      var j, k := Find(bufs, n), Find(next, n);
      assert j < |bufs| ==> next[j].Caches(n);
      assert k < |next| ==> bufs[k].Caches(n);
    }
  }

  /** Changing one block's buffer, pins and lock is fine if they fit together for that block. */
  lemma UpdateGood(s: Cache, i: nat, b: Buf, pins: seq<nat>, locks: set<nat>)
    requires i < NBUF && s.bufs[i].dev == b.dev == ROOTDEV && b.blockno == s.bufs[i].blockno
    requires |pins| == |s.pins| && BufOk(b, s.disk, pins, locks)
    requires forall n :: 0 <= n < |s.disk| && n != b.blockno ==> pins[n] == s.pins[n]
    requires forall n :: n != b.blockno ==> (n in locks <==> n in s.locks)
    ensures
      var t := Store(s.bufs[i := b], s.disk, pins, locks);
      && Good(t)
      && View(t) == View(s)[b.blockno := if b.valid then b.data else s.disk[b.blockno]]
  {
    FindSame(s.bufs, i, b);
    FindUnique(s.bufs, i);
    var bufs := s.bufs[i := b];
    forall k | 0 <= k < |bufs| ensures BufOk(bufs[k], s.disk, pins, locks) {
      assert BufOk(s.bufs[k], s.disk, s.pins, s.locks);
      assert k != i && bufs[k].dev != 0 ==> s.bufs[k].Caches(bufs[k].blockno) && s.bufs[i].Caches(b.blockno);
    }
  }

  lemma FindRecycled(bufs: seq<Buf>, i: nat, b: Buf)
    requires NoTwins(bufs) && i < |bufs| && b.dev == ROOTDEV && Find(bufs, b.blockno) == |bufs|
    ensures NoTwins(bufs[i := b])
    ensures Find(bufs[i := b], b.blockno) == i
    ensures forall n: nat :: n != b.blockno ==>
      Find(bufs[i := b], n) == if Find(bufs, n) == i then |bufs| else Find(bufs, n)
  {
    var next := bufs[i := b];
    FindUnique(next, i);
    forall n: nat | n != b.blockno
      ensures Find(next, n) == if Find(bufs, n) == i then |bufs| else Find(bufs, n)
    {
      var j, k := Find(bufs, n), Find(next, n);
      assert j < |bufs| && j != i ==> next[j].Caches(n);
      assert k < |bufs| && k != i ==> bufs[k].Caches(n);
    }
  }

  /** Giving an unused buffer to an uncached block changes no block's view. */
  lemma RecycleGood(s: Cache, i: nat, b: Buf)
    requires i < NBUF && s.bufs[i].refcnt == 0 && b.blockno < |s.disk| && Find(s.bufs, b.blockno) == NBUF
    requires b == Buf(false, ROOTDEV, b.blockno, 1, true, b.data)
    ensures
      var t := s.(bufs := s.bufs[i := b], locks := s.locks + {b.blockno});
      Good(t) && View(t) == View(s)
  {
    assert BufOk(s.bufs[i], s.disk, s.pins, s.locks);
    FindRecycled(s.bufs, i, b);
    var bufs := s.bufs[i := b];
    forall k | 0 <= k < NBUF ensures BufOk(bufs[k], s.disk, s.pins, s.locks + {b.blockno}) {
      assert BufOk(s.bufs[k], s.disk, s.pins, s.locks);
      assert k != i && bufs[k].dev == ROOTDEV ==> s.bufs[k].Caches(bufs[k].blockno);
    }
  }

  /** Writing a locked buffer to disk changes no block's view. */
  lemma WriteGood(s: Cache, i: nat)
    requires i < NBUF && s.bufs[i].dev == ROOTDEV && s.bufs[i].valid && s.bufs[i].locked
    ensures s.bufs[i].blockno < |s.disk|
    ensures
      var t := s.(disk := s.disk[s.bufs[i].blockno := s.bufs[i].data]);
      Good(t) && View(t) == View(s)
  {
    var b := s.bufs[i];
    assert BufOk(b, s.disk, s.pins, s.locks);
    FindUnique(s.bufs, i);
    forall k | 0 <= k < NBUF ensures BufOk(s.bufs[k], s.disk[b.blockno := b.data], s.pins, s.locks) {
      assert BufOk(s.bufs[k], s.disk, s.pins, s.locks);
      assert k != i && s.bufs[k].dev != 0 ==> s.bufs[k].Caches(s.bufs[k].blockno) && b.Caches(b.blockno);
    }
  }

  /** The node after the i-th is linked to it both ways. */
  ghost predicate Linked(prev: seq<nat>, next: seq<nat>, ring: seq<nat>, i: nat)
    requires |prev| == |next| && i < |ring|
  {
    var succ := ring[if i + 1 == |ring| then 0 else i + 1];
    ring[i] < |next| && next[ring[i]] == succ && succ < |next| && prev[succ] == ring[i]
  }

  /** next and prev form one circle through the nodes of ring, each node once. */
  ghost predicate Ring(prev: seq<nat>, next: seq<nat>, ring: seq<nat>) {
    && |prev| == |next| && |ring| > 0
    && (forall i, j :: 0 <= i < j < |ring| ==> ring[i] != ring[j])
    && (forall i :: 0 <= i < |ring| ==> Linked(prev, next, ring, i))
  }

  ghost function RemoveAt(r: seq<nat>, k: nat): (s: seq<nat>)
    requires k < |r|
    ensures |s| == |r| - 1 && forall i :: 0 <= i < |s| ==> s[i] == r[if i < k then i else i + 1]
  {
    r[..k] + r[k + 1..]
  }

  /** r with b put between its first node and the rest. */
  ghost function InsertFront(r: seq<nat>, b: nat): (s: seq<nat>)
    requires |r| > 0
    ensures |s| == |r| + 1 && s[0] == r[0] && s[1] == b
    ensures forall i :: 1 < i < |s| ==> s[i] == r[i - 1]
  {
    [r[0], b] + r[1..]
  }

  /** r with its k-th node moved to just behind the head. */
  ghost function Promote(r: seq<nat>, k: nat): (s: seq<nat>)
    requires 0 < k < |r|
    ensures |s| == |r| && s[0] == r[0] && s[1] == r[k]
    ensures forall i :: 1 < i < |s| ==> s[i] == r[if i <= k then i - 1 else i]
  {
    InsertFront(RemoveAt(r, k), r[k])
  }

  /** Taking the buffer at place k out of the list: its two neighbours are linked to each other. */
  lemma UnlinkRing(prev: seq<nat>, next: seq<nat>, ring: seq<nat>, k: nat)
    requires Ring(prev, next, ring) && 0 < k < |ring|
    ensures ring[k] < |next| && next[ring[k]] < |next| && prev[ring[k]] < |next|
    ensures
      var b := ring[k];
      Ring(prev[next[b] := prev[b]], next[prev[b] := next[b]], RemoveAt(ring, k))
  {
    var b := ring[k];
    assert Linked(prev, next, ring, k - 1) && Linked(prev, next, ring, k);
    var prev', next', rest := prev[next[b] := prev[b]], next[prev[b] := next[b]], RemoveAt(ring, k);
    forall i | 0 <= i < |rest| ensures Linked(prev', next', rest, i) {
      assert Linked(prev, next, ring, if i < k then i else i + 1);
    }
  }

  /** The four assignments that put b behind the head. */
  lemma PushRing(prev: seq<nat>, next: seq<nat>, ring: seq<nat>, b: nat)
    requires Ring(prev, next, ring) && b < |next| && b !in ring
    ensures ring[0] < |next| && next[ring[0]] < |next|
    ensures
      var h := ring[0];
      Ring(prev[b := h][next[h] := b], next[b := next[h]][h := b], InsertFront(ring, b))
  {
    var h := ring[0];
    assert Linked(prev, next, ring, 0);
    var prev', next', more := prev[b := h][next[h] := b], next[b := next[h]][h := b], InsertFront(ring, b);
    forall i | 0 <= i < |more| ensures Linked(prev', next', more, i) {
      if 1 < i {
        assert Linked(prev, next, ring, i - 1);
      }
    }
  }

  /**
   The list links. ring is the list with the head first, pos the place of each
   buffer in it, and stamp when each buffer was last moved to the front.
   */
  datatype Links = Links(prev: seq<nat>, next: seq<nat>, ghost ring: seq<nat>, ghost pos: seq<nat>,
                         ghost stamp: seq<nat>, ghost clock: nat)

  ghost predicate Stamped(ring: seq<nat>, pos: seq<nat>, stamp: seq<nat>, clock: nat)
    requires |ring| == NBUF + 1
  {
    && |stamp| == |pos| == NBUF
    && (forall b :: 0 <= b < NBUF ==> 1 <= pos[b] <= NBUF && ring[pos[b]] == b && stamp[b] <= clock)
    && (forall i :: 1 <= i <= NBUF ==> ring[i] < NBUF && pos[ring[i]] == i)
    && (forall i, j :: 1 <= i < j <= NBUF ==> stamp[ring[i]] > stamp[ring[j]])
  }

  /** The list holds every buffer once, in order of stamp, latest first. */
  ghost predicate Listed(l: Links) {
    && |l.next| == |l.ring| == NBUF + 1 && l.ring[0] == HEAD
    && Ring(l.prev, l.next, l.ring)
    && Stamped(l.ring, l.pos, l.stamp, l.clock)
  }

  type List = l: Links | Listed(l) ghost witness InitialList()

  /** The list after binit's loop has pushed buffers 0 to n - 1 to the front, buffer k at time k. */
  ghost function Pushed(n: nat): (l: Links)
    requires n <= NBUF
    ensures Ring(l.prev, l.next, l.ring) && |l.next| == NBUF + 1
    ensures |l.ring| == n + 1 && l.ring[0] == HEAD && forall k :: 1 <= k <= n ==> l.ring[k] == n - k
    ensures l.pos == seq(NBUF, k requires 0 <= k < NBUF => NBUF - k)
    ensures l.stamp == seq(NBUF, k => k) && l.clock == NBUF
  {
    if n == 0 then Links(seq(NBUF + 1, _ => HEAD), seq(NBUF + 1, _ => HEAD), [HEAD],
                         seq(NBUF, k requires 0 <= k < NBUF => NBUF - k), seq(NBUF, k => k), NBUF)
    else
      var l := Pushed(n - 1);
      PushRing(l.prev, l.next, l.ring, n - 1);
      var first := l.next[HEAD];
      l.(next := l.next[n - 1 := first][HEAD := n - 1], prev := l.prev[n - 1 := HEAD][first := n - 1],
         ring := InsertFront(l.ring, n - 1))
  }

  ghost function InitialList(): (l: Links)
    ensures Listed(l)
  {
    Pushed(NBUF)
  }

  /** l, known to be a list because it equals one. */
  function Same(l: Links, ghost p: List): (r: List)
    requires l == p
    ensures r == l
  {
    l
  }

  ghost function PromotePos(pos: seq<nat>, k: nat): (p: seq<nat>)
    ensures |p| == |pos|
    ensures forall b :: 0 <= b < |pos| ==> p[b] == if pos[b] < k then pos[b] + 1 else if pos[b] == k then 1 else pos[b]
  {
    seq(|pos|, b requires 0 <= b < |pos| => if pos[b] < k then pos[b] + 1 else if pos[b] == k then 1 else pos[b])
  }

  lemma PromoteStamps(ring: seq<nat>, pos: seq<nat>, stamp: seq<nat>, clock: nat, k: nat)
    requires |ring| == NBUF + 1 && Stamped(ring, pos, stamp, clock) && 0 < k < |ring|
    ensures ring[k] < |stamp| && Stamped(Promote(ring, k), PromotePos(pos, k), stamp[ring[k] := clock + 1], clock + 1)
  {
    assert ring[k] < NBUF;
  }

  /** brelse's six assignments to the links of b. */
  ghost function MovedPrev(prev: seq<nat>, next: seq<nat>, b: nat): seq<nat>
    requires CanMove(prev, next, b)
  {
    prev[next[b] := prev[b]][b := HEAD][next[prev[b] := next[b]][HEAD] := b]
  }

  ghost function MovedNext(prev: seq<nat>, next: seq<nat>, b: nat): seq<nat>
    requires CanMove(prev, next, b)
  {
    next[prev[b] := next[b]][b := next[prev[b] := next[b]][HEAD]][HEAD := b]
  }

  ghost predicate CanMove(prev: seq<nat>, next: seq<nat>, b: nat) {
    && |prev| == |next| == NBUF + 1 && b < NBUF && prev[b] <= NBUF && next[b] <= NBUF
    && next[prev[b] := next[b]][HEAD] <= NBUF
  }

  lemma PromoteRing(prev: seq<nat>, next: seq<nat>, ring: seq<nat>, k: nat)
    requires Ring(prev, next, ring) && |next| == NBUF + 1 && 0 < k < |ring| && ring[0] == HEAD
    ensures CanMove(prev, next, ring[k])
    ensures Ring(MovedPrev(prev, next, ring[k]), MovedNext(prev, next, ring[k]), Promote(ring, k))
  {
    UnlinkRing(prev, next, ring, k);
    var b := ring[k];
    PushRing(prev[next[b] := prev[b]], next[prev[b] := next[b]], RemoveAt(ring, k), b);
  }

  /** The list with its k-th node moved to the front now. */
  ghost function Promoted(l: List, k: nat): (r: List)
    requires 0 < k < |l.ring|
    ensures CanMove(l.prev, l.next, l.ring[k])
    ensures r == Links(MovedPrev(l.prev, l.next, l.ring[k]), MovedNext(l.prev, l.next, l.ring[k]),
                       Promote(l.ring, k), PromotePos(l.pos, k), l.stamp[l.ring[k] := l.clock + 1], l.clock + 1)
  {
    PromoteRing(l.prev, l.next, l.ring, k);
    PromoteStamps(l.ring, l.pos, l.stamp, l.clock, k);
    Links(MovedPrev(l.prev, l.next, l.ring[k]), MovedNext(l.prev, l.next, l.ring[k]),
          Promote(l.ring, k), PromotePos(l.pos, k), l.stamp[l.ring[k] := l.clock + 1], l.clock + 1)
  }

  /** An empty cache over a disk. */
  function NoBuffers(disk: Disk): (c: Cache)
    ensures c == Store(seq(NBUF, _ => UNUSED), disk, seq(|disk|, _ => 0), {})
    ensures View(c) == disk
  {
    Store(seq(NBUF, _ => UNUSED), disk, seq(|disk|, _ => 0), {})
  }

  /** brelse's first two assignments: take b out of the list. */
  method Unlink(prev: seq<nat>, next: seq<nat>, b: nat) returns (prev': seq<nat>, next': seq<nat>)
    requires |prev| == |next| && b < |next| && prev[b] < |next| && next[b] < |next|
    ensures prev' == prev[next[b] := prev[b]] && next' == next[prev[b] := next[b]]
  {
    prev', next' := prev, next;
    prev' := prev'[next'[b] := prev'[b]];
    next' := next'[prev[b] := next'[b]];
  }

  /** The four assignments, of binit and of brelse, that put b behind the head. */
  method PushFront(prev: seq<nat>, next: seq<nat>, b: nat) returns (prev': seq<nat>, next': seq<nat>)
    requires |prev| == |next| == NBUF + 1 && b < NBUF && next[HEAD] < |next|
    ensures prev' == prev[b := HEAD][next[HEAD] := b] && next' == next[b := next[HEAD]][HEAD := b]
  {
    prev', next' := prev, next;
    next' := next'[b := next'[HEAD]];
    prev' := prev'[b := HEAD];
    prev' := prev'[next'[HEAD] := b];
    next' := next'[HEAD := b];
  }

  /** binit: push every buffer to the front in turn. */
  method Binit() returns (r: List)
    ensures r == InitialList()
  {
    var l := Links(seq(NBUF + 1, _ => HEAD), seq(NBUF + 1, _ => HEAD), [HEAD],
                   seq(NBUF, k requires 0 <= k < NBUF => NBUF - k), seq(NBUF, k => k), NBUF);
    var b := 0;
    while b < NBUF
      invariant 0 <= b <= NBUF && l == Pushed(b)
    {
      PushRing(l.prev, l.next, l.ring, b);
      var prev, next := PushFront(l.prev, l.next, b);
      l := l.(prev := prev, next := next, ring := InsertFront(l.ring, b));
      b := b + 1;
    }
    r := Same(l, InitialList());
  }

  ghost predicate FreeBuffer(c: Store) {
    exists i :: 0 <= i < |c.bufs| && c.bufs[i].refcnt == 0
  }

  /**
   What a client knows of the cache: the disk, what each block reads as, the
   bpins of each block, the locked and filled buffer of each block that somebody
   holds, and whether a buffer is free.
   */
  datatype Flat = Flat(disk: Disk, view: Disk, pins: seq<nat>, held: map<nat, nat>, free: bool)

  ghost function Abstract(c: Cache): (a: Flat)
    ensures |a.view| == |a.pins| == |a.disk|
    ensures forall n :: n in a.held ==> n < |a.disk|
  {
    assert forall n :: n in HeldMap(c) ==> BufOk(c.bufs[Find(c.bufs, n)], c.disk, c.pins, c.locks);
    Flat(c.disk, View(c), c.pins, HeldMap(c), FreeBuffer(c))
  }

  ghost function HeldMap(c: Store): map<nat, nat> {
    HeldIn(c.bufs, c.locks)
  }

  ghost function HeldIn(bufs: seq<Buf>, locks: set<nat>): (m: map<nat, nat>)
    ensures forall n :: n in m <==> n in locks && Find(bufs, n) < |bufs| && bufs[Find(bufs, n)].valid
    ensures forall n :: n in m ==> m[n] == Find(bufs, n)
  {
    map n | n in locks && Find(bufs, n) < |bufs| && bufs[Find(bufs, n)].valid :: Find(bufs, n)
  }

  /** What a says about block n, and about free buffers, is so in c. */
  ghost predicate Shows(a: Flat, c: Cache, n: nat)
    requires |a.view| == |a.pins| == |c.disk|
  {
    && a.free == FreeBuffer(c)
    && (n in a.held <==> n in HeldMap(c)) && (n in c.locks <==> n in HeldMap(c))
    && (n in a.held ==> a.held[n] == HeldMap(c)[n])
    && (n < |c.disk| ==> a.view[n] == View(c)[n] && a.pins[n] == c.pins[n])
  }

  /** a is what a client knows of c; no buffer is locked without being filled. */
  ghost predicate Represents(a: Flat, c: Cache) {
    && a.disk == c.disk && |a.view| == |a.pins| == |a.disk|
    && (forall n :: n in a.held ==> n < |a.disk|)
    && forall n: nat :: Shows(a, c, n)
  }

  lemma RepresentsIff(a: Flat, c: Cache)
    ensures Represents(a, c) <==> a == Abstract(c) && c.locks == HeldMap(c).Keys
  {
    if Represents(a, c) {
      forall n: nat ensures n < |c.disk| ==> a.view[n] == View(c)[n] && a.pins[n] == c.pins[n] {
        assert Shows(a, c, n);
      }
      assert a.view == View(c) && a.pins == c.pins;
      forall n: nat
        ensures n in a.held <==> n in HeldMap(c)
        ensures n in a.held ==> a.held[n] == HeldMap(c)[n]
        ensures n in c.locks <==> n in HeldMap(c)
      {
        assert Shows(a, c, n);
      }
      assert a.held == HeldMap(c);
      assert Shows(a, c, 0);
    }
  }

  lemma HeldBuf(c: Cache, n: nat)
    requires n in HeldMap(c)
    ensures
      var b := HeldMap(c)[n];
      && n < |c.disk| && n in c.locks && b < NBUF
      && c.bufs[b].Caches(n) && c.bufs[b].locked && c.bufs[b].valid
      && c.bufs[b].data == View(c)[n] && c.bufs[b].refcnt == c.pins[n] + 1
  {
    assert BufOk(c.bufs[HeldMap(c)[n]], c.disk, c.pins, c.locks);
  }

  /** s with a buffer in use replaced, and the pins and the lock of its block with it. */
  function Replaced(s: Cache, i: nat, b: Buf, ghost pins: seq<nat>, ghost locks: set<nat>): (t: Cache)
    requires i < NBUF && s.bufs[i].dev == b.dev == ROOTDEV && b.blockno == s.bufs[i].blockno && s.bufs[i].refcnt > 0
    requires |pins| == |s.pins| && BufOk(b, s.disk, pins, locks)
    requires forall n :: 0 <= n < |s.disk| && n != b.blockno ==> pins[n] == s.pins[n]
    requires forall n :: n != b.blockno ==> (n in locks <==> n in s.locks)
    ensures t.bufs == s.bufs[i := b] && t.disk == s.disk && t.pins == pins && t.locks == locks && b.blockno < |s.disk|
    ensures Abstract(t) == Flat(
      s.disk, View(s)[b.blockno := if b.valid then b.data else s.disk[b.blockno]], pins,
      if b.locked && b.valid then HeldMap(s)[b.blockno := i] else HeldMap(s) - {b.blockno},
      b.refcnt == 0 || FreeBuffer(s))
  {
    UpdateGood(s, i, b, pins, locks);
    HeldUpdate(s.bufs, s.locks, i, b, locks);
    FreeUpdate(s, i, b);
    Store(s.bufs[i := b], s.disk, pins, locks)
  }

  lemma HeldUpdate(bufs: seq<Buf>, locks: set<nat>, i: nat, b: Buf, locks': set<nat>)
    requires NoTwins(bufs) && i < |bufs| && bufs[i].dev == b.dev == ROOTDEV && b.blockno == bufs[i].blockno
    requires b.locked == (b.blockno in locks')
    requires forall n :: n != b.blockno ==> (n in locks' <==> n in locks)
    ensures HeldIn(bufs[i := b], locks') ==
      if b.locked && b.valid then HeldIn(bufs, locks)[b.blockno := i] else HeldIn(bufs, locks) - {b.blockno}
  {
    FindSame(bufs, i, b);
    FindUnique(bufs, i);
    HeldChange(bufs, locks, i, b, locks');
  }

  lemma HeldChange(bufs: seq<Buf>, locks: set<nat>, i: nat, b: Buf, locks': set<nat>)
    requires i < |bufs| && Find(bufs, b.blockno) == i && forall n :: Find(bufs[i := b], n) == Find(bufs, n)
    requires b.locked == (b.blockno in locks')
    requires forall n :: n != b.blockno ==> (n in locks' <==> n in locks)
    ensures HeldIn(bufs[i := b], locks') ==
      if b.locked && b.valid then HeldIn(bufs, locks)[b.blockno := i] else HeldIn(bufs, locks) - {b.blockno}
  {
    forall n | n != b.blockno && Find(bufs, n) < |bufs| ensures Find(bufs, n) != i {
      assert bufs[Find(bufs, n)].Caches(n);
    }
  }

  lemma FreeUpdate(s: Cache, i: nat, b: Buf)
    requires i < NBUF && s.bufs[i].refcnt > 0
    ensures FreeBuffer(s.(bufs := s.bufs[i := b])) <==> b.refcnt == 0 || FreeBuffer(s)
  {
    var next := s.bufs[i := b];
    if k :| 0 <= k < NBUF && s.bufs[k].refcnt == 0 {
      assert next[k].refcnt == 0;
    }
    assert b.refcnt == 0 ==> next[i].refcnt == 0;
  }

  /** s with buffer i taken by one more process, which locks it. */
  function Taken(s: Cache, i: nat): (t: Cache)
    requires i < NBUF && s.bufs[i].dev == ROOTDEV && s.bufs[i].blockno !in s.locks
    ensures t.bufs == s.bufs[i := s.bufs[i].(refcnt := s.bufs[i].refcnt + 1, locked := true)]
    ensures t.disk == s.disk && t.pins == s.pins && t.locks == s.locks + {s.bufs[i].blockno}
    ensures View(t) == View(s)
    ensures HeldMap(t) == if s.bufs[i].valid then HeldMap(s)[s.bufs[i].blockno := i] else HeldMap(s)
  {
    assert BufOk(s.bufs[i], s.disk, s.pins, s.locks);
    var b := s.bufs[i].(refcnt := s.bufs[i].refcnt + 1, locked := true);
    UpdateGood(s, i, b, s.pins, s.locks + {b.blockno});
    HeldUpdate(s.bufs, s.locks, i, b, s.locks + {b.blockno});
    FindUnique(s.bufs, i);
    Store(s.bufs[i := b], s.disk, s.pins, s.locks + {b.blockno})
  }

  /** s with unused buffer i given, locked and not yet filled, to a block without one. */
  function Recycled(s: Cache, i: nat, blockno: nat): (t: Cache)
    requires i < NBUF && s.bufs[i].refcnt == 0 && blockno < |s.disk| && Find(s.bufs, blockno) == NBUF
    ensures t.bufs == s.bufs[i := Buf(false, ROOTDEV, blockno, 1, true, s.bufs[i].data)]
    ensures t.disk == s.disk && t.pins == s.pins && t.locks == s.locks + {blockno}
    ensures View(t) == View(s) && HeldMap(t) == HeldMap(s)
  {
    var b := Buf(false, ROOTDEV, blockno, 1, true, s.bufs[i].data);
    RecycleGood(s, i, b);
    HeldRecycled(s, i, b);
    Store(s.bufs[i := b], s.disk, s.pins, s.locks + {blockno})
  }

  lemma HeldRecycled(s: Cache, i: nat, b: Buf)
    requires i < NBUF && s.bufs[i].refcnt == 0 && Find(s.bufs, b.blockno) == NBUF
    requires b.dev == ROOTDEV && !b.valid && b.locked
    requires Good(Store(s.bufs[i := b], s.disk, s.pins, s.locks + {b.blockno}))
    ensures HeldMap(Store(s.bufs[i := b], s.disk, s.pins, s.locks + {b.blockno})) == HeldMap(s)
  {
    FindRecycled(s.bufs, i, b);
    assert BufOk(s.bufs[i], s.disk, s.pins, s.locks);
  }

  /** s with locked buffer i read in from disk, unless it is valid already. */
  function Loaded(s: Cache, i: nat): (t: Cache)
    requires i < NBUF && s.bufs[i].dev == ROOTDEV && s.bufs[i].locked
    ensures t.disk == s.disk && t.pins == s.pins && t.locks == s.locks && View(t) == View(s)
    ensures HeldMap(t) == HeldMap(s)[s.bufs[i].blockno := i]
  {
    assert BufOk(s.bufs[i], s.disk, s.pins, s.locks);
    FindUnique(s.bufs, i);
    if s.bufs[i].valid then
      assert HeldMap(s)[s.bufs[i].blockno := i] == HeldMap(s);
      s
    else
      Replaced(s, i, s.bufs[i].(data := s.disk[s.bufs[i].blockno], valid := true), s.pins, s.locks)
  }

  /** s with the held buffer i of block n let go. */
  function Released(s: Cache, i: nat, ghost n: nat): (t: Cache)
    requires n in HeldMap(s) && HeldMap(s)[n] == i && n < |s.disk|
    requires s.pins[n] > 0 || View(s)[n] == s.disk[n]
    ensures Abstract(t) == Flat(s.disk, View(s), s.pins, HeldMap(s) - {n}, FreeBuffer(s) || s.pins[n] == 0)
    ensures i < NBUF && t.bufs == s.bufs[i := s.bufs[i].(locked := false, refcnt := s.pins[n])]
    ensures t.disk == s.disk && t.pins == s.pins && t.locks == s.locks - {n}
  {
    HeldBuf(s, n);
    assert View(s)[n := s.bufs[i].data] == View(s);
    Replaced(s, i, s.bufs[i].(locked := false, refcnt := s.bufs[i].refcnt - 1), s.pins, s.locks - {n})
  }

  /** s with d pins more for the held block n. */
  function Repinned(s: Cache, i: nat, ghost n: nat, d: int): (t: Cache)
    requires n in HeldMap(s) && HeldMap(s)[n] == i && n < |s.disk| && s.pins[n] + d >= 0
    ensures Abstract(t) == Abstract(s).(pins := s.pins[n := s.pins[n] + d])
    ensures i < NBUF && t.bufs == s.bufs[i := s.bufs[i].(refcnt := s.pins[n] + d + 1)]
    ensures t.disk == s.disk && t.pins == s.pins[n := s.pins[n] + d] && t.locks == s.locks
  {
    HeldBuf(s, n);
    assert HeldMap(s)[n := i] == HeldMap(s) && View(s)[n := s.bufs[i].data] == View(s);
    Replaced(s, i, s.bufs[i].(refcnt := s.bufs[i].refcnt + d), s.pins[n := s.pins[n] + d], s.locks)
  }

  /** s with the held buffer of block n written to disk. */
  function WrittenBack(s: Cache, i: nat, ghost n: nat): (t: Cache)
    requires n in HeldMap(s) && HeldMap(s)[n] == i
    ensures t.bufs == s.bufs && t.pins == s.pins && t.locks == s.locks && n < |s.disk|
    ensures Abstract(t) == Abstract(s).(disk := s.disk[n := View(s)[n]])
  {
    HeldBuf(s, n);
    WriteGood(s, i);
    s.(disk := s.disk[s.bufs[i].blockno := s.bufs[i].data])
  }

  /** With no buffer free, an unlocked block has a buffer exactly if it is pinned. */
  lemma MissPanics(s: Cache, n: nat)
    requires n < |s.disk| && n !in s.locks
    ensures !FreeBuffer(s) ==> (Find(s.bufs, n) == NBUF <==> s.pins[n] == 0)
  {
    var i := Find(s.bufs, n);
    assert i < NBUF ==> BufOk(s.bufs[i], s.disk, s.pins, s.locks);
    assert s.pins[n] > 0 ==> i < NBUF;
  }

  // ---- how many buffers are in use ----

  /** The blocks that pins or holders keep in the cache. */
  ghost function Busy(a: Flat): set<nat> {
    set n: nat | n < |a.pins| && (a.pins[n] > 0 || n in a.held)
  }

  lemma {:induction false} ImageSize(s: set<nat>, bufs: seq<Buf>)
    requires forall i :: i in s ==> i < |bufs| && bufs[i].dev == ROOTDEV
    requires NoTwins(bufs)
    ensures |set i | i in s :: bufs[i].blockno| == |s|
  {
    var image := set i | i in s :: bufs[i].blockno;
    if s != {} {
      var k :| k in s;
      ImageSize(s - {k}, bufs);
      var rest := set i | i in s - {k} :: bufs[i].blockno;
      assert forall i :: i in s - {k} ==> bufs[i].Caches(bufs[i].blockno) && bufs[k].Caches(bufs[k].blockno);
      assert bufs[k].blockno !in rest && image == rest + {bufs[k].blockno};
    }
  }

  /** The numbers below m. */
  ghost function Below(m: nat): (s: set<nat>)
    ensures |s| == m && forall i: nat :: i in s <==> i < m
  {
    if m == 0 then {} else Below(m - 1) + {m - 1}
  }

  ghost function Used(bufs: seq<Buf>): (s: set<nat>)
    ensures forall i: nat :: i in s <==> i < |bufs| && bufs[i].refcnt > 0
  {
    set i | i in Below(|bufs|) && bufs[i].refcnt > 0
  }

  lemma UsedSize(bufs: seq<Buf>)
    ensures (exists i :: 0 <= i < |bufs| && bufs[i].refcnt == 0) <==> |Used(bufs)| < |bufs|
  {
    if i :| 0 <= i < |bufs| && bufs[i].refcnt == 0 {
      Fewer(Used(bufs), Below(|bufs|) - {i});
    } else {
      assert Used(bufs) == Below(|bufs|);
    }
  }

  lemma UsedIsBusy(c: Cache, i: nat)
    requires i < NBUF && c.bufs[i].refcnt > 0 && c.locks == HeldMap(c).Keys
    ensures c.bufs[i].dev == ROOTDEV && c.bufs[i].blockno in Busy(Abstract(c))
  {
    assert BufOk(c.bufs[i], c.disk, c.pins, c.locks);
  }

  lemma BusyIsUsed(c: Cache, n: nat)
    requires n in Busy(Abstract(c))
    ensures Find(c.bufs, n) in Used(c.bufs)
  {
    assert Find(c.bufs, n) < NBUF;
    assert BufOk(c.bufs[Find(c.bufs, n)], c.disk, c.pins, c.locks);
  }

  /** A buffer is free exactly if fewer than NBUF blocks are pinned or held. */
  lemma FreeIff(a: Flat, c: Cache)
    requires Represents(a, c)
    ensures a.free <==> |Busy(a)| < NBUF
  {
    RepresentsIff(a, c);
    var used := Used(c.bufs);
    forall i | i in used ensures c.bufs[i].dev == ROOTDEV && c.bufs[i].blockno in Busy(a) {
      UsedIsBusy(c, i);
    }
    forall n | n in Busy(a) ensures Find(c.bufs, n) in used {
      BusyIsUsed(c, n);
    }
    SameSize(c.bufs, used, Busy(a));
    UsedSize(c.bufs);
  }

  lemma SameSize(bufs: seq<Buf>, used: set<nat>, busy: set<nat>)
    requires NoTwins(bufs)
    requires forall i :: i in used ==> i < |bufs| && bufs[i].dev == ROOTDEV && bufs[i].blockno in busy
    requires forall n :: n in busy ==> Find(bufs, n) in used
    ensures |used| == |busy|
  {
    ImageSize(used, bufs);
    assert busy == set i | i in used :: bufs[i].blockno;
  }

  /** A block that is neither pinned nor held reads as its disk block. */
  lemma Clean(a: Flat, c: Cache, n: nat)
    requires Represents(a, c) && n < |a.disk| && a.pins[n] == 0 && n !in a.held
    ensures a.view[n] == a.disk[n]
  {
    RepresentsIff(a, c);
    var i := Find(c.bufs, n);
    assert i < NBUF ==> BufOk(c.bufs[i], c.disk, c.pins, c.locks);
  }

  // ---- the operations as steps of CacheProtocol ----

  ghost function StepBuf(b: Buf): P.Buf<Data> {
    P.Buf(b.valid, if b.dev == ROOTDEV then Some(b.blockno) else None, b.refcnt, b.data)
  }

  ghost function PinsOf(b: Buf, pins: seq<nat>): nat {
    if b.dev == ROOTDEV && b.blockno < |pins| then pins[b.blockno] else 0
  }

  /** The state of CacheProtocol: use i is that of the process that holds buffer i. */
  ghost function StateOf(c: Store): (s: P.State<Data>)
    ensures |s.bufs| == |s.uses| == |s.pins| == |c.bufs| && s.disk == c.disk
    ensures forall i :: 0 <= i < |c.bufs| ==>
      && s.bufs[i] == StepBuf(c.bufs[i]) && s.pins[i] == PinsOf(c.bufs[i], c.pins)
      && s.uses[i] == if c.bufs[i].locked then P.Holding(i) else P.Out
  {
    P.State(seq(|c.bufs|, i requires 0 <= i < |c.bufs| => StepBuf(c.bufs[i])), c.disk,
            seq(|c.bufs|, i requires 0 <= i < |c.bufs| => if c.bufs[i].locked then P.Holding(i) else P.Out),
            seq(|c.bufs|, i requires 0 <= i < |c.bufs| => PinsOf(c.bufs[i], c.pins)))
  }

  /** The steps es lead from c to d. The one-instance quantifier keeps the steps out of proofs that do not need them. */
  ghost predicate Moves(c: Cache, es: seq<P.Event<Data>>, d: Cache) {
    forall s :: s == StateOf(c) ==> P.Steps(s, es, StateOf(d))
  }

  /** s is the state of a cache that differs from c in buffer i. */
  lemma StateIs(s: P.State<Data>, c: Store, d: Store, i: nat)
    requires i < |c.bufs| == |d.bufs| && |s.bufs| == |s.uses| == |s.pins| == |c.bufs| && s.disk == d.disk
    requires forall k :: 0 <= k < |c.bufs| && k != i ==>
      && s.bufs[k] == StateOf(c).bufs[k] && s.uses[k] == StateOf(c).uses[k] && s.pins[k] == StateOf(c).pins[k]
      && d.bufs[k] == c.bufs[k] && PinsOf(d.bufs[k], d.pins) == PinsOf(c.bufs[k], c.pins)
    requires s.bufs[i] == StepBuf(d.bufs[i]) && s.pins[i] == PinsOf(d.bufs[i], d.pins)
    requires s.uses[i] == if d.bufs[i].locked then P.Holding(i) else P.Out
    ensures s == StateOf(d)
  {
    assert s.bufs == StateOf(d).bufs && s.uses == StateOf(d).uses && s.pins == StateOf(d).pins;
  }

  lemma MovesOne(c: Cache, e: P.Event<Data>, d: Cache)
    requires P.Enabled(StateOf(c), e) && P.Next(StateOf(c), e) == StateOf(d)
    ensures Moves(c, [e], d)
  {
    P.OneStep(StateOf(c), e);
  }

  lemma MovesTwo(c: Cache, e: P.Event<Data>, f: P.Event<Data>, d: Cache)
    requires P.Enabled(StateOf(c), e) && P.Enabled(P.Next(StateOf(c), e), f)
    requires P.Next(P.Next(StateOf(c), e), f) == StateOf(d)
    ensures Moves(c, [e, f], d)
  {
    P.OneStep(StateOf(c), e);
    P.OneStep(P.Next(StateOf(c), e), f);
    P.StepsJoin(StateOf(c), [e], P.Next(StateOf(c), e), [f], StateOf(d));
    assert [e] + [f] == [e, f];
  }

  lemma MovesJoin(c: Cache, es: seq<P.Event<Data>>, d: Cache, fs: seq<P.Event<Data>>, e: Cache)
    requires Moves(c, es, d) && Moves(d, fs, e)
    ensures Moves(c, es + fs, e)
  {
    assert P.Steps(StateOf(c), es, StateOf(d)) && P.Steps(StateOf(d), fs, StateOf(e));
    P.StepsJoin(StateOf(c), es, StateOf(d), fs, StateOf(e));
  }

  lemma TakenMoves(c: Cache, i: nat)
    requires i < NBUF && c.bufs[i].dev == ROOTDEV && c.bufs[i].blockno !in c.locks
    ensures Moves(c, [P.Hit(i, c.bufs[i].blockno, i), P.Lock(i)], Taken(c, i))
  {
    assert BufOk(c.bufs[i], c.disk, c.pins, c.locks);
    var s, e, f := StateOf(c), P.Hit(i, c.bufs[i].blockno, i), P.Lock(i);
    assert P.Caches(s, i, c.bufs[i].blockno) && P.Enabled(s, e);
    assert P.Enabled(P.Next(s, e), f);
    StateIs(P.Next(P.Next(s, e), f), c, Taken(c, i), i);
    MovesTwo(c, e, f, Taken(c, i));
  }

  lemma RecycledMoves(c: Cache, i: nat, n: nat)
    requires i < NBUF && c.bufs[i].refcnt == 0 && n < |c.disk| && Find(c.bufs, n) == NBUF
    ensures Moves(c, [P.Recycle(i, n, i), P.Lock(i)], Recycled(c, i, n))
  {
    assert BufOk(c.bufs[i], c.disk, c.pins, c.locks);
    var s, e, f := StateOf(c), P.Recycle(i, n, i), P.Lock(i);
    forall k | 0 <= k < NBUF ensures !P.Caches(s, k, n) {
      assert !c.bufs[k].Caches(n);
    }
    assert P.Enabled(s, e) && P.Enabled(P.Next(s, e), f) && c.pins[n] == 0;
    StateIs(P.Next(P.Next(s, e), f), c, Recycled(c, i, n), i);
    MovesTwo(c, e, f, Recycled(c, i, n));
  }

  /** The steps of bread that returned buffer i. */
  ghost function ReadSteps(c: Cache, i: nat, n: nat): seq<P.Event<Data>>
    requires i < NBUF
  {
    [if Find(c.bufs, n) < NBUF then P.Hit(i, n, i) else P.Recycle(i, n, i), P.Lock(i)]
    + if Find(c.bufs, n) < NBUF && c.bufs[i].valid then [] else [P.Load(i)]
  }

  lemma LoadedMoves(c: Cache, i: nat)
    requires i < NBUF && c.bufs[i].dev == ROOTDEV && c.bufs[i].locked
    ensures Moves(c, if c.bufs[i].valid then [] else [P.Load(i)], Loaded(c, i))
  {
    assert BufOk(c.bufs[i], c.disk, c.pins, c.locks);
    if !c.bufs[i].valid {
      StateIs(P.Next(StateOf(c), P.Load(i)), c, Loaded(c, i), i);
      MovesOne(c, P.Load(i), Loaded(c, i));
    }
  }

  /** bget may return buffer i for block n: the block's own, or an unused one if it has none. */
  ghost predicate CanGet(c: Cache, i: nat, n: nat) {
    && i < NBUF && n < |c.disk| && n !in c.locks
    && if Find(c.bufs, n) < NBUF then c.bufs[i].Caches(n) else c.bufs[i].refcnt == 0
  }

  /** c after bget has returned buffer i. */
  ghost function Got(c: Cache, i: nat, n: nat): (d: Cache)
    requires CanGet(c, i, n)
    ensures d.bufs[i].Caches(n) && d.bufs[i].locked && d.locks == c.locks + {n}
  {
    if Find(c.bufs, n) < NBUF then Taken(c, i) else Recycled(c, i, n)
  }

  lemma GotMoves(c: Cache, i: nat, n: nat)
    requires CanGet(c, i, n)
    ensures Moves(c, ReadSteps(c, i, n), Loaded(Got(c, i, n), i))
  {
    var d := Got(c, i, n);
    if Find(c.bufs, n) < NBUF {
      TakenMoves(c, i);
    } else {
      RecycledMoves(c, i, n);
    }
    LoadedMoves(d, i);
    var load := if d.bufs[i].valid then [] else [P.Load(i)];
    MovesJoin(c, ReadSteps(c, i, n)[..2], d, load, Loaded(d, i));
    assert ReadSteps(c, i, n) == ReadSteps(c, i, n)[..2] + load;
  }

  lemma GotShows(a: Flat, c: Cache, i: nat, n: nat)
    requires Represents(a, c) && CanGet(c, i, n)
    ensures
      var d := Loaded(Got(c, i, n), i);
      Represents(a.(held := a.held[n := i], free := FreeBuffer(d)), d)
  {
    RepresentsIff(a, c);
    var d := Loaded(Got(c, i, n), i);
    assert HeldMap(d) == HeldMap(c)[n := i];
    RepresentsIff(a.(held := a.held[n := i], free := FreeBuffer(d)), d);
  }

  /** A step of the holder of buffer i that changes the buffer, or the pins of its block. */
  lemma ReplacedMoves(c: Cache, i: nat, e: P.Event<Data>, b: Buf, d: Cache)
    requires i < NBUF && c.bufs[i].dev == b.dev == ROOTDEV && c.bufs[i].locked && b.locked
    requires b.blockno == c.bufs[i].blockno && P.Enabled(StateOf(c), e)
    requires d.bufs == c.bufs[i := b] && d.disk == c.disk && |d.pins| == |c.pins|
    requires forall n :: 0 <= n < |c.disk| && n != b.blockno ==> d.pins[n] == c.pins[n]
    requires
      var s := StateOf(c);
      P.Next(s, e) == s.(bufs := s.bufs[i := StepBuf(b)], pins := s.pins[i := PinsOf(b, d.pins)])
    ensures Moves(c, [e], d)
  {
    forall k | 0 <= k < NBUF && k != i ensures PinsOf(d.bufs[k], d.pins) == PinsOf(c.bufs[k], c.pins) {
      assert BufOk(c.bufs[k], c.disk, c.pins, c.locks);
      assert c.bufs[i].Caches(b.blockno) && c.bufs[k].dev == ROOTDEV ==> !c.bufs[k].Caches(b.blockno);
    }
    StateIs(P.Next(StateOf(c), e), c, d, i);
    MovesOne(c, e, d);
  }

  lemma RepinShows(a: Flat, c: Cache, i: nat, n: nat, d: int)
    requires Represents(a, c) && n in a.held && a.held[n] == i && a.pins[n] + d >= 0
    ensures n in HeldMap(c) && HeldMap(c)[n] == i && n < |c.disk| && a.pins == c.pins
    ensures Represents(a.(pins := a.pins[n := a.pins[n] + d]), Repinned(c, i, n, d))
  {
    RepresentsIff(a, c);
    RepresentsIff(a.(pins := a.pins[n := a.pins[n] + d]), Repinned(c, i, n, d));
  }

  lemma PinMoves(c: Cache, i: nat, n: nat)
    requires n in HeldMap(c) && HeldMap(c)[n] == i && n < |c.disk|
    ensures Moves(c, [P.Pin(i)], Repinned(c, i, n, 1))
  {
    HeldBuf(c, n);
    var d := Repinned(c, i, n, 1);
    ReplacedMoves(c, i, P.Pin(i), d.bufs[i], d);
  }

  lemma UnpinMoves(c: Cache, i: nat, n: nat)
    requires n in HeldMap(c) && HeldMap(c)[n] == i && n < |c.disk| && c.pins[n] > 0
    ensures Moves(c, [P.Unpin(i)], Repinned(c, i, n, -1))
  {
    HeldBuf(c, n);
    var d := Repinned(c, i, n, -1);
    ReplacedMoves(c, i, P.Unpin(i), d.bufs[i], d);
  }

  lemma WrittenMoves(c: Cache, i: nat, n: nat)
    requires n in HeldMap(c) && HeldMap(c)[n] == i
    ensures Moves(c, [P.WriteBack(i)], WrittenBack(c, i, n))
  {
    HeldBuf(c, n);
    StateIs(P.Next(StateOf(c), P.WriteBack(i)), c, WrittenBack(c, i, n), i);
    MovesOne(c, P.WriteBack(i), WrittenBack(c, i, n));
  }

  lemma ReleasedMoves(c: Cache, i: nat, n: nat)
    requires n in HeldMap(c) && HeldMap(c)[n] == i && n < |c.disk|
    requires c.pins[n] > 0 || View(c)[n] == c.disk[n]
    ensures Moves(c, [P.Unlock(i), P.Drop(i)], Released(c, i, n))
  {
    HeldBuf(c, n);
    var s := StateOf(c);
    P.LeaveSteps(s, i);
    StateIs(s.(bufs := s.bufs[i := s.bufs[i].(refcnt := s.bufs[i].refcnt - 1)], uses := s.uses[i := P.Out]),
            c, Released(c, i, n), i);
  }

  /** What the cache shows of a block is what CacheProtocol's flat map holds there. */
  lemma SameViews(c: Cache, n: nat)
    requires n < |c.disk|
    ensures P.ViewAt(StateOf(c), n) == View(c)[n]
  {
    var s, i := StateOf(c), Find(c.bufs, n);
    forall b | 0 <= b < NBUF ensures P.Caches(s, b, n) <==> b == i {
      assert P.Caches(s, b, n) <==> c.bufs[b].Caches(n);
    }
    assert i < NBUF ==> P.Caches(s, i, n);
  }

  /**
   Whatever calls lead from the empty cache to c, their steps are a run of
   CacheProtocol, and what c shows of each block is the last change of that run.
   */
  lemma CallsAreRun(disk: Disk, es: seq<P.Event<Data>>, c: Cache) returns (ss: seq<P.State<Data>>)
    requires Moves(NoBuffers(disk), es, c)
    ensures P.Run(ss, es) && ss[|es|] == StateOf(c) && |ss[0].disk| == |disk| == |c.disk|
    ensures forall n :: 0 <= n < |disk| ==> View(c)[n] == P.Changed(ss, es, |es|, n)
  {
    assert P.Steps(StateOf(NoBuffers(disk)), es, StateOf(c));
    ss := P.Trace(StateOf(NoBuffers(disk)), es, StateOf(c));
    P.RunKeeps(ss, es, |es|);
    forall n | 0 <= n < |disk| ensures View(c)[n] == P.Changed(ss, es, |es|, n) {
      P.FlatMap(ss, es, |es|, n);
      SameViews(c, n);
    }
  }

  class Bcache {
    var cache: Cache
    var list: List
    ghost var abs: Flat           // what clients know
    ghost var trace: seq<Write<Data>>   // every disk write so far

    ghost predicate Valid()
      reads this
    {
      Represents(abs, cache)
    }

    /** Whether bget would find no buffer for the block. */
    ghost predicate NoBuffer(blockno: nat)
      reads this`cache
    {
      Find(cache.bufs, blockno) == NBUF && !FreeBuffer(cache)
    }

    constructor (disk: Disk)
      ensures Valid() && cache == NoBuffers(disk) && list == InitialList() && trace == []
      ensures abs == Flat(disk, disk, seq(|disk|, _ => 0), map[], true)
    {
      var l := Binit();
      list := l;
      cache := NoBuffers(disk);
      abs := Abstract(NoBuffers(disk));
      trace := [];
      new;
      RepresentsIff(abs, cache);
      assert cache.bufs[0].refcnt == 0;
    }

    /** The first scan of bget: forward from head.next, for the block's buffer. */
    method Lookup(blockno: nat) returns (b: nat)
      ensures b == Find(cache.bufs, blockno)
    {
      b := list.next[HEAD];
      ghost var ring, i := list.ring, 1;
      assert Linked(list.prev, list.next, ring, 0);
      while b != HEAD
        invariant 1 <= i <= |ring|
        invariant b == if i < |ring| then ring[i] else HEAD
        invariant forall k :: 1 <= k < i ==> !cache.bufs[ring[k]].Caches(blockno)
        decreases |ring| - i
      {
        if cache.bufs[b].dev == ROOTDEV && cache.bufs[b].blockno == blockno {
          return;
        }
        assert Linked(list.prev, list.next, ring, i);
        b, i := list.next[b], i + 1;
      }
      forall k | 0 <= k < NBUF ensures !cache.bufs[k].Caches(blockno) {
        assert ring[list.pos[k]] == k;
      }
    }

    /** The second scan of bget: backward from head.prev, for an unused buffer; HEAD if there is none. */
    method LeastRecent() returns (b: nat)
      ensures b <= HEAD
      ensures b == HEAD <==> !FreeBuffer(cache)
      ensures b != HEAD ==> cache.bufs[b].refcnt == 0
      ensures b != HEAD ==> forall k :: 0 <= k < NBUF && cache.bufs[k].refcnt == 0 ==> list.stamp[b] <= list.stamp[k]
    {
      b := list.prev[HEAD];
      ghost var ring, i := list.ring, NBUF;
      assert Linked(list.prev, list.next, ring, NBUF);
      while b != HEAD
        invariant 0 <= i < |ring|
        invariant b == ring[i]
        invariant forall k :: i < k < |ring| ==> cache.bufs[ring[k]].refcnt > 0
        decreases i
      {
        if cache.bufs[b].refcnt == 0 {
          forall k | 0 <= k < NBUF && cache.bufs[k].refcnt == 0 ensures list.stamp[b] <= list.stamp[k] {
            assert ring[list.pos[k]] == k;
          }
          return;
        }
        assert Linked(list.prev, list.next, ring, i - 1);
        b, i := list.prev[b], i - 1;
      }
      forall k | 0 <= k < NBUF ensures cache.bufs[k].refcnt > 0 {
        assert ring[list.pos[k]] == k;
      }
    }

    /** bget; None is panic("bget: no buffers"). The caller must not hold the block's buffer itself. */
    method Bget(blockno: nat) returns (r: Option<nat>)
      requires blockno < |cache.disk| && blockno !in cache.locks
      modifies this`cache
      ensures r == None <==> old(NoBuffer(blockno))
      ensures r == None ==> cache == old(cache)
      // a hit takes the block's buffer; a miss the unused one that was moved to the front longest ago
      ensures r.Some? ==> CanGet(old(cache), r.value, blockno) && cache == Got(old(cache), r.value, blockno)
      ensures r.Some? && old(Find(cache.bufs, blockno)) == NBUF ==>
        forall i :: 0 <= i < NBUF && old(cache).bufs[i].refcnt == 0 ==> list.stamp[r.value] <= list.stamp[i]
    {
      var b := Lookup(blockno);
      if b != HEAD {
        cache := Taken(cache, b);
        return Some(b);
      }
      b := LeastRecent();
      if b != HEAD {
        cache := Recycled(cache, b, blockno);
        return Some(b);
      }
      r := None;
    }

    /** bread: the latest contents of the block, locked. */
    method Bread(blockno: nat) returns (r: Option<nat>)
      requires Valid() && blockno < |abs.disk| && blockno !in abs.held
      modifies this`cache, this`abs
      ensures Valid()
      // panics exactly if no buffer is free and the block has none
      ensures r == None <==> !old(abs).free && old(abs).pins[blockno] == 0
      ensures r == None ==> abs == old(abs)
      ensures r.Some? ==> abs == old(abs).(held := old(abs).held[blockno := r.value], free := abs.free)
      ensures r == None ==> cache == old(cache)
      ensures r.Some? ==> r.value < NBUF && Moves(old(cache), ReadSteps(old(cache), r.value, blockno), cache)
    {
      RepresentsIff(abs, cache);
      MissPanics(cache, blockno);
      r := Bget(blockno);
      if r.Some? {
        GotMoves(old(cache), r.value, blockno);
        GotShows(abs, old(cache), r.value, blockno);
        cache := Loaded(cache, r.value);
        abs := abs.(held := abs.held[blockno := r.value], free := FreeBuffer(cache));
      }
    }

    /** A change of b->data by the process that holds the buffer. */
    method Fill(b: nat, data: Data, ghost blockno: nat)
      requires Valid() && blockno in abs.held && abs.held[blockno] == b
      modifies this`cache, this`abs
      ensures Valid() && abs == old(abs).(view := old(abs).view[blockno := data])
      ensures Moves(old(cache), [P.Change(b, data)], cache)
    {
      RepresentsIff(abs, cache);
      HeldBuf(cache, blockno);
      assert HeldMap(cache)[blockno := b] == HeldMap(cache);
      cache := Replaced(cache, b, cache.bufs[b].(data := data), cache.pins, cache.locks);
      ReplacedMoves(old(cache), b, P.Change(b, data), cache.bufs[b], cache);
      abs := Abstract(cache);
      RepresentsIff(abs, cache);
    }

    /** b->data, as read by the process that holds the buffer. */
    method Peek(b: nat, ghost blockno: nat) returns (data: Data)
      requires Valid() && blockno in abs.held && abs.held[blockno] == b
      ensures data == abs.view[blockno]
    {
      RepresentsIff(abs, cache);
      HeldBuf(cache, blockno);
      data := cache.bufs[b].data;
    }

    /** memmove between two held buffers. */
    method Copy(dst: nat, src: nat, ghost n1: nat, ghost n2: nat)
      requires Valid() && n1 in abs.held && abs.held[n1] == dst && n2 in abs.held && abs.held[n2] == src
      modifies this`cache, this`abs
      ensures Valid() && abs == old(abs).(view := old(abs).view[n1 := old(abs).view[n2]])
      ensures Moves(old(cache), [P.Change(dst, old(abs).view[n2])], cache)
    {
      RepresentsIff(abs, cache);
      HeldBuf(cache, n2);
      Fill(dst, cache.bufs[src].data, n1);
    }

    /** bwrite */
    method Bwrite(b: nat, ghost blockno: nat)
      requires Valid() && blockno in abs.held && abs.held[blockno] == b
      modifies this`cache, this`abs, this`trace
      ensures Valid() && abs == old(abs).(disk := old(abs).disk[blockno := old(abs).view[blockno]])
      ensures trace == old(trace) + [Write(blockno, old(abs).view[blockno])]
      ensures Moves(old(cache), [P.WriteBack(b)], cache)
    {
      RepresentsIff(abs, cache);
      WrittenMoves(cache, b, blockno);
      trace := trace + [Write(blockno, abs.view[blockno])];
      cache := WrittenBack(cache, b, blockno);
      abs := Abstract(cache);
      RepresentsIff(abs, cache);
    }

    /** brelse: a buffer that differs from its disk block must have been pinned. */
    method Brelse(b: nat, ghost blockno: nat)
      requires Valid() && blockno in abs.held && abs.held[blockno] == b
      requires abs.pins[blockno] > 0 || abs.view[blockno] == abs.disk[blockno]
      modifies this`cache, this`abs, this`list
      ensures Valid()
      ensures abs == old(abs).(held := old(abs).held - {blockno}, free := old(abs).free || old(abs).pins[blockno] == 0)
      // without pins the buffer is now the most recently used one
      ensures old(abs).pins[blockno] > 0 ==> list == old(list)
      ensures old(abs).pins[blockno] == 0 ==>
        b < NBUF && list.clock == old(list).clock + 1 && list.stamp == old(list).stamp[b := list.clock]
      ensures Moves(old(cache), [P.Unlock(b), P.Drop(b)], cache)
    {
      RepresentsIff(abs, cache);
      ReleasedMoves(cache, b, blockno);
      cache := Released(cache, b, blockno);
      abs := Abstract(cache);
      RepresentsIff(abs, cache);
      if cache.bufs[b].refcnt == 0 {
        MoveToFront(b);
      }
    }

    /** The list part of brelse. */
    method MoveToFront(b: nat)
      requires b < NBUF
      modifies this`list
      ensures list.clock == old(list).clock + 1 && list.stamp == old(list).stamp[b := list.clock]
      ensures list.ring == Promote(old(list).ring, old(list).pos[b])
    {
      ghost var k := list.pos[b];
      ghost var moved := Promoted(list, k);
      var prev, next := Unlink(list.prev, list.next, b);
      prev, next := PushFront(prev, next, b);
      list := Same(Links(prev, next, moved.ring, moved.pos, moved.stamp, moved.clock), moved);
    }

    /** acquiresleep on the lock of a pinned block: its holder, if it has one, comes to its brelse first. */
    method AwaitHolder(blockno: nat)
      requires Valid() && blockno < |abs.disk| && abs.pins[blockno] > 0
      modifies this`cache, this`abs, this`list
      ensures Valid() && abs == old(abs).(held := old(abs).held - {blockno}) && list == old(list)
      ensures blockno in old(abs).held ==>
        var b := old(abs).held[blockno]; Moves(old(cache), [P.Unlock(b), P.Drop(b)], cache)
      ensures blockno !in old(abs).held ==> cache == old(cache)
    {
      RepresentsIff(abs, cache);
      var b := Lookup(blockno);
      assert b < NBUF && BufOk(cache.bufs[b], cache.disk, cache.pins, cache.locks);
      if cache.bufs[b].locked {
        Brelse(b, blockno);
      }
      assert blockno !in old(abs).held ==> old(abs).held - {blockno} == old(abs).held;
    }

    /** bpin */
    method Bpin(b: nat, ghost blockno: nat)
      requires Valid() && blockno in abs.held && abs.held[blockno] == b
      modifies this`cache, this`abs
      ensures Valid() && abs == old(abs).(pins := old(abs).pins[blockno := old(abs).pins[blockno] + 1])
      ensures Moves(old(cache), [P.Pin(b)], cache)
    {
      RepinShows(abs, cache, b, blockno, 1);
      PinMoves(cache, b, blockno);
      cache := Repinned(cache, b, blockno, 1);
      abs := abs.(pins := abs.pins[blockno := abs.pins[blockno] + 1]);
    }

    /** bunpin, by a process that holds the buffer. */
    method Bunpin(b: nat, ghost blockno: nat)
      requires Valid() && blockno in abs.held && abs.held[blockno] == b && abs.pins[blockno] > 0
      modifies this`cache, this`abs
      ensures Valid() && abs == old(abs).(pins := old(abs).pins[blockno := old(abs).pins[blockno] - 1])
      ensures Moves(old(cache), [P.Unpin(b)], cache)
    {
      RepinShows(abs, cache, b, blockno, -1);
      UnpinMoves(cache, b, blockno);
      cache := Repinned(cache, b, blockno, -1);
      abs := abs.(pins := abs.pins[blockno := abs.pins[blockno] - 1]);
    }
  }
}
