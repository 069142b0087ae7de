/**
 The chunking loop of filewrite (kernel/file.c:149-175): a long write becomes a
 sequence of transactions, each small enough for the log.
 */
module File {
  import opened Block
  import opened BlockMap
  import opened Common
  import opened Fs
  import R = Recovery

  const MAXOPBLOCKS := R.MAXOPBLOCKS
  const MAX := 3072             // ((MAXOPBLOCKS-1-1-2) / 2) * BSIZE

  // ---- what one transaction writes to the log ----

  ghost function Span(slots: seq<nat>, lo: nat, hi: nat): set<nat>
    requires |slots| == SLOTS
  {
    if lo >= hi then {} else Span(slots, lo, hi - 1) + (if SlotOf(hi - 1) < SLOTS then {slots[SlotOf(hi - 1)]} else {})
  }

  lemma {:induction false} SpanSize(slots: seq<nat>, lo: nat, hi: nat)
    requires |slots| == SLOTS && lo <= hi
    ensures |Span(slots, lo, hi)| <= hi - lo
  {
    if lo < hi { SpanSize(slots, lo, hi - 1); }
  }

  lemma {:induction false} SpanHolds(slots: seq<nat>, lo: nat, hi: nat, bn: nat)
    requires |slots| == SLOTS && lo <= bn < hi && SlotOf(bn) < SLOTS
    ensures slots[SlotOf(bn)] in Span(slots, lo, hi)
  {
    if bn < hi - 1 { SpanHolds(slots, lo, hi - 1, bn); }
  }

  /** A set inside three blocks and a span. */
  lemma FewBlocks(s: set<nat>, x: nat, y: nat, z: nat, span: set<nat>)
    requires s <= {x, y, z} + span
    ensures |s| <= 3 + |span|
  {
    assert |{x, y, z}| <= 3;
    assert |{x, y, z} + span| <= |{x, y, z}| + |span|;
    var rest := {x, y, z} + span - s;
    assert s + rest == {x, y, z} + span;
  }

  /**
   With one bitmap block, a writei of up to MAX bytes logs at most 4 data blocks, an
   indirect, a bitmap and an inode block.
   */
  lemma TransactionBound(sb: Sb, was: set<nat>, inode: nat, logged: set<nat>, slots: seq<nat>, off: nat, n: nat,
                         hi: nat)
    requires LoggedIn(sb, was + {inode}, logged, slots, off / BSIZE, hi) && |slots| == SLOTS
    requires sb.size <= BPB && n <= MAX && hi * BSIZE < off + n + BSIZE
    ensures |logged - was| <= 7 < MAXOPBLOCKS
  {
    var lo := off / BSIZE;
    var hi' := if hi < lo then lo else hi;
    assert hi' <= lo + 4;
    var span := Span(slots, lo, hi');
    SpanSize(slots, lo, hi');
    forall c | c in logged - was ensures c in {inode, sb.bmapstart, slots[NDIRECT]} + span {
      assert LoggedBlock(sb, was + {inode}, slots, lo, hi, c);
      assert BitmapBlock(sb, c) ==> c == sb.bmapstart;
      if InSpan(slots, lo, hi, c) {
        var bn :| lo <= bn < hi && SlotOf(bn) < |slots| && c == slots[SlotOf(bn)];
        SpanHolds(slots, lo, hi', bn);
      }
    }
    FewBlocks(logged - was, inode, sb.bmapstart, slots[NDIRECT], span);
  }

  // ---- the loop ----

  /** Two writes one after the other are one write. */
  lemma SpliceThen<T>(c: seq<T>, off: nat, a: seq<T>, b: seq<T>)
    requires off <= |c|
    ensures off + |a| <= |Splice(c, off, a)| && Splice(Splice(c, off, a), off + |a|, b) == Splice(c, off, a + b)
  {
    var x, y := Splice(Splice(c, off, a), off + |a|, b), Splice(c, off, a + b);
    assert |x| == |y|;
    forall i | 0 <= i < |x| ensures x[i] == y[i] { }
  }

  /**
   What writei does with a chunk at off of a file was, by its result r: c is the file and
   m2 the block map afterwards. It refuses, or panics, or stops where the copy fails.
   */
  ghost predicate WriteiDid(was: seq<Byte>, c: seq<Byte>, m1: Map, m2: Map, inum: nat, off: nat, chunk: seq<Byte>,
                            readable: nat, r: Option<int>)
  {
    && |was| <= LIMIT
    && if off > |was| || off + |chunk| > LIMIT then r == Some(-1) && c == was && m2 == m1
       else
         var ks := NeedsAll(off / BSIZE, HiAt(off, |chunk|, readable));
         && (if r.Some? then Bought(m1, m2, inum, ks) else TooFew(m1, inum, ks))
         && (r.Some? ==>
           && r.value == StopAt(off, |chunk|, readable) && Stops(off, |chunk|, readable, r.value)
           && c == AfterWrite(was, off, chunk, readable, r.value))
  }

  /** The quantifier has one instance; it keeps WriteiDid out of the loop. */
  ghost predicate OpDid(was: seq<Byte>, c: seq<Byte>, m1: Map, m2: Map, inum: nat, off: nat, chunk: seq<Byte>,
                        readable: nat, r: Option<int>)
  {
    forall o: nat :: o == off ==> WriteiDid(was, c, m1, m2, inum, o, chunk, readable, r)
  }

  /** One transaction: begin_op, writei, end_op. */
  method WriteOp(fs: FileSystem, inum: nat, off: nat, chunk: seq<Byte>, readable: nat)
    returns (r: Option<int>, ghost c: seq<Byte>)
    requires fs.Sound() && SavedBut(fs.sb, fs.v, fs.ins, -1) && inum < |fs.ins| && off < WORD_LIMIT && |chunk| <= MAX
    modifies fs
    ensures |fs.ins| == old(|fs.ins|)
    ensures r.None? ==> fs.Full()
    ensures r.None? <==>
      && !old(fs.Refused(inum, off, |chunk|))
      && TooFew(old(fs.m), inum, NeedsAll(off / BSIZE, HiAt(off, |chunk|, readable)))
    ensures r.Some? ==> fs.Sound() && SavedBut(fs.sb, fs.v, fs.ins, -1)
    ensures r.Some? && fs.sb.size <= BPB ==> |fs.logged| <= 7
    ensures r.Some? ==> forall j :: 0 <= j < |fs.ins| && j != inum ==> fs.Contents(j) == old(fs.Contents(j))
    ensures OpDid(old(fs.Contents(inum)), c, old(fs.m), fs.m, inum, off, chunk, readable, r)
    ensures r.Some? ==> c == fs.Contents(inum)
    ensures r.Some? && r.value in {-1, |chunk|} ==> Captured(old(fs.v), fs.v, {}, fs.logged)
  {
    fs.logged := {};
    ghost var hi;
    ghost var stray;
    c := fs.Contents(inum);
    assert |c| == fs.ins[inum].size;
    r, hi, stray := fs.Writei(inum, off, chunk, readable);
    if r.Some? { c := fs.Contents(inum); }
    if r.Some? && !old(fs.Refused(inum, off, |chunk|)) && fs.sb.size <= BPB {
      TransactionBound(fs.sb, {}, fs.sb.IBlock(inum), fs.logged, fs.m.refs[inum], off, |chunk|, hi);
      assert fs.logged - {} == fs.logged;
    }
  }

  /** The first i bytes have been written, chunk by chunk. */
  ghost predicate Progress(c0: seq<Byte>, c: seq<Byte>, off: nat, src: seq<Byte>, i: nat) {
    i <= |src| && off <= |c0| && c == Splice(c0, off, src[..i])
  }

  lemma ProgressMore(c0: seq<Byte>, c: seq<Byte>, off: nat, src: seq<Byte>, i: nat, n1: nat, readable: nat)
    requires Progress(c0, c, off, src, i) && i + n1 <= |src| && n1 <= readable
    ensures off + i <= |c| && Stops(off + i, n1, readable, n1)
    ensures Progress(c0, AfterWrite(c, off + i, src[i..i + n1], readable, n1), off, src, i + n1)
  {
    SpliceThen(c0, off, src[..i], src[i..i + n1]);
    assert src[..i] + src[i..i + n1] == src[..i + n1];
    AfterFullWrite(c, off + i, src[i..i + n1], readable);
  }

  /** The file between two turns of the loop. */
  ghost predicate Between(c0: seq<Byte>, c: seq<Byte>, off: nat, src: seq<Byte>, i: nat, readable: nat) {
    if i == 0 then c == c0 else i <= readable && off + i <= LIMIT && Progress(c0, c, off, src, i)
  }

  // ---- where filewrite stops, from what its caller knows ----

  /** How many bytes fit below the largest file size and can be read. */
  function Room(off: nat, readable: nat): nat { if off > LIMIT then 0 else Min(LIMIT - off, readable) }

  /** The length of the turn at src[i..]. */
  function TurnLen(n: nat, i: nat): nat
    requires i <= n
  {
    Min(MAX, n - i)
  }

  /** Where the turn starts that does not write all its bytes; n if there is none. */
  function LastTurn(off: nat, n: nat, readable: nat): (i: nat)
    ensures i <= n && i <= Room(off, readable)
  {
    if n <= Room(off, readable) then n else Room(off, readable) / MAX * MAX
  }

  /** Nothing of the last turn is written: there is none, or writei refuses it. */
  predicate NoLast(off: nat, n: nat, readable: nat) {
    var i := LastTurn(off, n, readable);
    i == n || off + i + TurnLen(n, i) > LIMIT
  }

  /** One more than the last block of the first i bytes. */
  function HiDone(off: nat, i: nat): nat { if i == 0 then off / BSIZE else (off + i - 1) / BSIZE + 1 }

  /** One more than the last block that filewrite asks bmap for, or the first if it asks for none. */
  function LastHi(off: nat, n: nat, readable: nat): nat {
    var i := LastTurn(off, n, readable);
    if NoLast(off, n, readable) then HiDone(off, i) else HiAt(off + i, TurnLen(n, i), readable - i)
  }

  /** By how much filewrite moves the offset. */
  function Moved(off: nat, n: nat, readable: nat): nat {
    var i := LastTurn(off, n, readable);
    i + if NoLast(off, n, readable) then 0 else StopAt(off + i, TurnLen(n, i), readable - i)
  }

  /** The file after filewrite: the turns before the last, and what writei leaves of that. */
  ghost function AfterTurns(c: seq<Byte>, off: nat, src: seq<Byte>, readable: nat): seq<Byte>
    requires off <= |c|
  {
    var i := LastTurn(off, |src|, readable);
    var n1 := TurnLen(|src|, i);
    var done := Splice(c, off, src[..i]);
    if NoLast(off, |src|, readable) then done
    else
      StopsIs(off + i, n1, readable - i, StopAt(off + i, n1, readable - i));
      AfterWrite(done, off + i, src[i..i + n1], readable - i, StopAt(off + i, n1, readable - i))
  }

  /** The loop is at src[i..], after whole turns. */
  predicate AtTurn(off: nat, n: nat, readable: nat, i: nat) {
    i <= n && i <= Room(off, readable) && (i % MAX == 0 || i == n)
  }

  /** A turn whose bytes fit and can be read is not the last, one where they do not is. */
  lemma TurnIs(off: nat, n: nat, readable: nat, i: nat)
    requires AtTurn(off, n, readable, i) && i < n
    ensures if i + TurnLen(n, i) <= Room(off, readable) then AtTurn(off, n, readable, i + TurnLen(n, i))
            else LastTurn(off, n, readable) == i
  {
  }

  lemma LastIs(off: nat, n: nat, readable: nat)
    requires AtTurn(off, n, readable, n)
    ensures LastTurn(off, n, readable) == n
  {
  }

  lemma HiDoneMore(off: nat, i: nat, j: nat)
    requires i <= j
    ensures off / BSIZE <= HiDone(off, i) <= HiDone(off, j) && HiDone(off, i) <= (off + i) / BSIZE + 1
    ensures (off + i) / BSIZE <= HiDone(off, i)
  {
  }

  /** The blocks of a turn follow those of the turns before. */
  lemma TurnHi(off: nat, n: nat, readable: nat, i: nat)
    requires AtTurn(off, n, readable, i) && i < n && off + i + TurnLen(n, i) <= LIMIT
    ensures
      var hi := HiAt(off + i, TurnLen(n, i), readable - i);
      && HiDone(off, i) <= hi <= LastHi(off, n, readable)
      && (LastTurn(off, n, readable) == i ==> hi == LastHi(off, n, readable))
      && (i + TurnLen(n, i) <= Room(off, readable) ==> hi == HiDone(off, i + TurnLen(n, i)))
  {
    var n1, j := TurnLen(n, i), LastTurn(off, n, readable);
    TurnIs(off, n, readable, i);
    HiDoneMore(off, i, i);
    StopHi(off + i, n1, readable - i);
    if i + n1 <= Room(off, readable) {
      NotPast(off, n, readable, i + n1);
      HiDoneMore(off, i + n1, j);
      if !NoLast(off, n, readable) { StopHi(off + j, TurnLen(n, j), readable - j); HiDoneMore(off, j, j); }
    }
  }

  lemma NotPast(off: nat, n: nat, readable: nat, i: nat)
    requires AtTurn(off, n, readable, i)
    ensures i <= LastTurn(off, n, readable)
  {
  }

  lemma StopHi(off: nat, n: nat, readable: nat)
    requires n > 0
    ensures off / BSIZE + 1 <= HiAt(off, n, readable)
    ensures n <= readable ==> HiAt(off, n, readable) == (off + n - 1) / BSIZE + 1
  {
  }

  lemma {:induction false} NeedsJoin(lo: nat, mid: nat, hi: nat, hi': nat)
    requires lo <= mid <= hi <= hi'
    ensures NeedsAll(lo, hi) + NeedsAll(mid, hi') == NeedsAll(lo, hi')
    decreases hi'
  {
    if hi < hi' {
      NeedsJoin(lo, mid, hi, hi' - 1);
    } else if mid < hi {
      NeedsJoin(lo, mid, hi - 1, hi - 1);
    }
  }

  // The quantifiers have one instance; they keep the blocks out of the loop.

  /** Since m0, the blocks from off to before block hi have been bought. */
  ghost predicate Paid(m0: Map, m: Map, inum: nat, off: nat, hi: nat) {
    forall h: nat :: h == hi ==> Bought(m0, m, inum, NeedsAll(off / BSIZE, h))
  }

  ghost predicate Lacking(m0: Map, inum: nat, off: nat, hi: nat) {
    forall h: nat :: h == hi ==> TooFew(m0, inum, NeedsAll(off / BSIZE, h))
  }

  lemma PaidNone(m: Map, inum: nat, off: nat)
    requires inum < |m.refs|
    ensures Paid(m, m, inum, off, HiDone(off, 0))
  {
    BoughtNone(m, inum);
  }

  lemma PaidOrNot(m0: Map, m: Map, inum: nat, off: nat, hi: nat, ok: bool)
    requires if ok then Paid(m0, m, inum, off, hi) else Lacking(m0, inum, off, hi)
    ensures TooFew(m0, inum, NeedsAll(off / BSIZE, hi)) <==> !ok
  {
    if ok { BoughtEnough(m0, m, inum, NeedsAll(off / BSIZE, hi)); }
  }

  /** What a turn adds to the blocks bought before, or lacks. */
  lemma TurnCost(m0: Map, m1: Map, m2: Map, inum: nat, off: nat, i: nat, hi: nat, ok: bool)
    requires Paid(m0, m1, inum, off, HiDone(off, i)) && HiDone(off, i) <= hi
    requires if ok then Bought(m1, m2, inum, NeedsAll((off + i) / BSIZE, hi))
             else TooFew(m1, inum, NeedsAll((off + i) / BSIZE, hi))
    ensures if ok then Paid(m0, m2, inum, off, hi) else Lacking(m0, inum, off, hi)
  {
    var a, b := NeedsAll(off / BSIZE, HiDone(off, i)), NeedsAll((off + i) / BSIZE, hi);
    HiDoneMore(off, i, i);
    NeedsJoin(off / BSIZE, (off + i) / BSIZE, HiDone(off, i), hi);
    assert Bought(m0, m1, inum, a);
    if ok { BoughtThen(m0, m1, m2, inum, a, b); } else { TooFewThen(m0, m1, inum, a, b); }
  }

  /** The blocks after a turn that writei did not refuse: those so far, or all that filewrite asks for. */
  lemma TurnPaid(m0: Map, m1: Map, m2: Map, inum: nat, off: nat, n: nat, readable: nat, i: nat, ok: bool)
    requires AtTurn(off, n, readable, i) && i < n && off + i + TurnLen(n, i) <= LIMIT
    requires Paid(m0, m1, inum, off, HiDone(off, i))
    requires
      var ks := NeedsAll((off + i) / BSIZE, HiAt(off + i, TurnLen(n, i), readable - i));
      if ok then Bought(m1, m2, inum, ks) else TooFew(m1, inum, ks)
    ensures !ok ==> Lacking(m0, inum, off, LastHi(off, n, readable))
    ensures ok ==>
      var n1 := TurnLen(n, i);
      Paid(m0, m2, inum, off, if i + n1 <= Room(off, readable) then HiDone(off, i + n1) else LastHi(off, n, readable))
  {
    var hi := HiAt(off + i, TurnLen(n, i), readable - i);
    TurnIs(off, n, readable, i);
    TurnHi(off, n, readable, i);
    TurnCost(m0, m1, m2, inum, off, i, hi, ok);
    if !ok { TurnFails(m0, inum, off / BSIZE, hi, LastHi(off, n, readable)); }
  }

  /** filewrite ends after whole turns for i bytes and one for which writei returned r. */
  ghost predicate Ended(c0: seq<Byte>, c: seq<Byte>, off: nat, src: seq<Byte>, readable: nat, i: nat, r: int) {
    if off > |c0| then c == c0 && i == 0 && r <= 0
    else c == AfterTurns(c0, off, src, readable) && Moved(off, |src|, readable) == i + if r > 0 then r else 0
  }

  lemma StopsShort(c0: seq<Byte>, was: seq<Byte>, c: seq<Byte>, off: nat, src: seq<Byte>, readable: nat, i: nat, r: int)
    requires AtTurn(off, |src|, readable, i) && i < |src| && off <= |c0| && Between(c0, was, off, src, i, readable)
    requires off <= LIMIT && i + TurnLen(|src|, i) > Room(off, readable)
    requires
      var n1 := TurnLen(|src|, i);
      if off + i + n1 > LIMIT then r == -1 && c == was
      else
        && r == StopAt(off + i, n1, readable - i) && off + i <= |was| && Stops(off + i, n1, readable - i, r)
        && c == AfterWrite(was, off + i, src[i..i + n1], readable - i, r)
    ensures Ended(c0, c, off, src, readable, i, r)
  {
    TurnIs(off, |src|, readable, i);
    assert src[..0] == [];
    assert was == Splice(c0, off, src[..i]);
  }

  lemma RefusedLast(off: nat, n: nat, readable: nat, i: nat)
    requires AtTurn(off, n, readable, i) && i < n && off <= LIMIT < off + i + TurnLen(n, i)
    ensures i + TurnLen(n, i) > Room(off, readable) && LastHi(off, n, readable) == HiDone(off, i)
  {
    TurnIs(off, n, readable, i);
  }

  /** What writei did with the turn at src[i..]: from was to c, and from m1 to m2. */
  ghost predicate TurnDid(was: seq<Byte>, c: seq<Byte>, m1: Map, m2: Map, inum: nat, off: nat, src: seq<Byte>,
                          readable: nat, i: nat, r: Option<int>)
    requires i <= |src| && i <= readable
  {
    OpDid(was, c, m1, m2, inum, off + i, src[i..i + TurnLen(|src|, i)], readable - i, r)
  }

  lemma WasReaches(c0: seq<Byte>, was: seq<Byte>, off: nat, src: seq<Byte>, readable: nat, i: nat)
    requires Between(c0, was, off, src, i, readable) && i <= |src|
    ensures off + i <= |was| <==> off <= |c0|
    ensures off <= |c0| ==> Progress(c0, was, off, src, i)
  {
    assert src[..0] == [];
  }

  /** The loop goes on at src[i..]. */
  ghost predicate LoopAt(c0: seq<Byte>, c: seq<Byte>, m0: Map, m: Map, inum: nat, off: nat, src: seq<Byte>,
                         readable: nat, i: nat)
  {
    && AtTurn(off, |src|, readable, i) && Between(c0, c, off, src, i, readable)
    && Paid(m0, m, inum, off, HiDone(off, i))
  }

  /** The quantifier has one instance; it keeps LoopAt out of the loop. */
  ghost predicate GoesOn(c0: seq<Byte>, c: seq<Byte>, m0: Map, m: Map, inum: nat, off: nat, src: seq<Byte>,
                         readable: nat, i: nat)
  {
    i <= |src| && i <= readable && forall k: nat :: k == i ==> LoopAt(c0, c, m0, m, inum, off, src, readable, k)
  }

  lemma Begins(c0: seq<Byte>, m: Map, inum: nat, off: nat, src: seq<Byte>, readable: nat)
    requires inum < |m.refs|
    ensures GoesOn(c0, c0, m, m, inum, off, src, readable, 0)
  {
    PaidNone(m, inum, off);
  }

  /** A turn whose bytes fit and can be read. */
  lemma TurnWhole(c0: seq<Byte>, was: seq<Byte>, c: seq<Byte>, m0: Map, m1: Map, m2: Map, inum: nat, off: nat,
                  src: seq<Byte>, readable: nat, i: nat, r: int)
    requires GoesOn(c0, was, m0, m1, inum, off, src, readable, i) && i < |src|
    requires TurnDid(was, c, m1, m2, inum, off, src, readable, i, Some(r))
    requires off <= |c0| && i + TurnLen(|src|, i) <= Room(off, readable)
    ensures r == TurnLen(|src|, i) && off + i + r <= LIMIT
    ensures GoesOn(c0, c, m0, m2, inum, off, src, readable, i + TurnLen(|src|, i))
  {
    assert LoopAt(c0, was, m0, m1, inum, off, src, readable, i);
    assert WriteiDid(was, c, m1, m2, inum, off + i, src[i..i + TurnLen(|src|, i)], readable - i, Some(r));
    TurnIs(off, |src|, readable, i);
    WasReaches(c0, was, off, src, readable, i);
    TurnPaid(m0, m1, m2, inum, off, |src|, readable, i, true);
    ProgressMore(c0, was, off, src, i, TurnLen(|src|, i), readable - i);
  }

  /** A turn whose bytes do not fit, or cannot all be read. */
  lemma TurnShort(c0: seq<Byte>, was: seq<Byte>, c: seq<Byte>, m0: Map, m1: Map, m2: Map, inum: nat, off: nat,
                  src: seq<Byte>, readable: nat, i: nat, r: int)
    requires GoesOn(c0, was, m0, m1, inum, off, src, readable, i) && i < |src|
    requires TurnDid(was, c, m1, m2, inum, off, src, readable, i, Some(r))
    requires off > |c0| || i + TurnLen(|src|, i) > Room(off, readable)
    ensures r != TurnLen(|src|, i) && Ended(c0, c, off, src, readable, i, r)
    ensures off <= |c0| ==> !TooFew(m0, inum, NeedsAll(off / BSIZE, LastHi(off, |src|, readable)))
  {
    assert LoopAt(c0, was, m0, m1, inum, off, src, readable, i);
    assert WriteiDid(was, c, m1, m2, inum, off + i, src[i..i + TurnLen(|src|, i)], readable - i, Some(r));
    WasReaches(c0, was, off, src, readable, i);
    if off <= |c0| {
      if off + i + TurnLen(|src|, i) <= LIMIT {
        TurnPaid(m0, m1, m2, inum, off, |src|, readable, i, true);
      } else {
        RefusedLast(off, |src|, readable, i);
      }
      PaidOrNot(m0, m2, inum, off, LastHi(off, |src|, readable), true);
      StopsShort(c0, was, c, off, src, readable, i, r);
    }
  }

  /** A turn in which balloc panics. */
  lemma TurnPanics(c0: seq<Byte>, was: seq<Byte>, c: seq<Byte>, m0: Map, m1: Map, m2: Map, inum: nat, off: nat,
                   src: seq<Byte>, readable: nat, i: nat)
    requires GoesOn(c0, was, m0, m1, inum, off, src, readable, i) && i < |src|
    requires TurnDid(was, c, m1, m2, inum, off, src, readable, i, None)
    ensures off <= |c0| && TooFew(m0, inum, NeedsAll(off / BSIZE, LastHi(off, |src|, readable)))
  {
    assert LoopAt(c0, was, m0, m1, inum, off, src, readable, i);
    assert WriteiDid(was, c, m1, m2, inum, off + i, src[i..i + TurnLen(|src|, i)], readable - i, None);
    WasReaches(c0, was, off, src, readable, i);
    TurnPaid(m0, m1, m2, inum, off, |src|, readable, i, false);
    PaidOrNot(m0, m2, inum, off, LastHi(off, |src|, readable), false);
  }

  /** One turn of the loop, at src[i..]. */
  method Turn(fs: FileSystem, inum: nat, off: nat, src: seq<Byte>, i: nat, readable: nat, ghost off0: nat)
    returns (r: Option<int>, n1: nat, ghost c: seq<Byte>)
    requires fs.Sound() && SavedBut(fs.sb, fs.v, fs.ins, -1) && inum < |fs.ins| && off == off0 + i < WORD_LIMIT
      && i < |src| && i <= readable
    modifies fs
    ensures |fs.ins| == old(|fs.ins|) && n1 == TurnLen(|src|, i)
    ensures r.None? ==> fs.Full()
    ensures r.Some? ==> fs.Sound() && SavedBut(fs.sb, fs.v, fs.ins, -1) && c == fs.Contents(inum)
    ensures r.Some? ==> forall j :: 0 <= j < |fs.ins| && j != inum ==> fs.Contents(j) == old(fs.Contents(j))
    ensures TurnDid(old(fs.Contents(inum)), c, old(fs.m), fs.m, inum, off0, src, readable, i, r)
  {
    n1 := |src| - i;
    if n1 > MAX {
      n1 := MAX;
    }
    assert n1 == TurnLen(|src|, i);
    r, c := WriteOp(fs, inum, off, src[i..i + n1], readable - i);
  }

  lemma EndsWhole(c0: seq<Byte>, c: seq<Byte>, m0: Map, m: Map, inum: nat, off: nat, src: seq<Byte>, readable: nat)
    requires GoesOn(c0, c, m0, m, inum, off, src, readable, |src|) && src != []
    ensures off <= |c0| && c == Splice(c0, off, src) && off + |src| <= LIMIT && |src| <= readable
    ensures Ended(c0, c, off, src, readable, |src|, 0)
    ensures !TooFew(m0, inum, NeedsAll(off / BSIZE, LastHi(off, |src|, readable)))
  {
    assert LoopAt(c0, c, m0, m, inum, off, src, readable, |src|);
    LastIs(off, |src|, readable);
    assert src[..|src|] == src;
    PaidOrNot(m0, m, inum, off, LastHi(off, |src|, readable), true);
  }

  class OpenFile {
    const inum: nat
    var off: nat

    /**
     filewrite on an inode, of bytes of which the first readable ones can be read; None is
     the panic of balloc, which comes exactly if the blocks it asks for are too many.
     */
    method Filewrite(fs: FileSystem, src: seq<Byte>, readable: nat) returns (ret: Option<int>)
      requires fs.Sound() && SavedBut(fs.sb, fs.v, fs.ins, -1) && inum < |fs.ins| && off < WORD_LIMIT
      modifies fs, this
      ensures |fs.ins| == old(|fs.ins|)
      ensures ret.None? ==> fs.Full()
      ensures ret.None? <==>
        && src != [] && old(off) <= |old(fs.Contents(inum))|
        && TooFew(old(fs.m), inum, NeedsAll(old(off) / BSIZE, LastHi(old(off), |src|, readable)))
      ensures ret.Some? ==> fs.Sound() && SavedBut(fs.sb, fs.v, fs.ins, -1)
      ensures ret.Some? ==> forall j :: 0 <= j < |fs.ins| && j != inum ==> fs.Contents(j) == old(fs.Contents(j))
      ensures ret.Some? ==>
        var c0 := old(fs.Contents(inum));
        && ret.value == (if src == [] ||
                         (old(off) <= |c0| && old(off) + |src| <= LIMIT && |src| <= readable) then |src| else -1)
        && (ret.value == |src| > 0 ==> off == old(off) + |src| && fs.Contents(inum) == Splice(c0, old(off), src))
      ensures ret.Some? ==>
        var c0 := old(fs.Contents(inum));
        if src == [] || old(off) > |c0| then fs.Contents(inum) == c0 && off == old(off)
        else
          && fs.Contents(inum) == AfterTurns(c0, old(off), src, readable)
          && off == old(off) + Moved(old(off), |src|, readable)
    {
      ghost var c0, off0, m0 := fs.Contents(inum), off, fs.m;
      Begins(c0, m0, inum, off0, src, readable);
      var i := 0;
      while i < |src|
        invariant |fs.ins| == old(|fs.ins|) && fs.Sound() && SavedBut(fs.sb, fs.v, fs.ins, -1)
        invariant forall j :: 0 <= j < |fs.ins| && j != inum ==> fs.Contents(j) == old(fs.Contents(j))
        invariant off == off0 + i < WORD_LIMIT && (i == 0 ==> fs.Contents(inum) == c0)
        invariant GoesOn(c0, fs.Contents(inum), m0, fs.m, inum, off0, src, readable, i)
      {
        ghost var was, m1, c := fs.Contents(inum), fs.m, [];
        var r, n1;
        r, n1, c := Turn(fs, inum, off, src, i, readable, off0);
        if r.None? {
          TurnPanics(c0, was, c, m0, m1, fs.m, inum, off0, src, readable, i);
          return None;
        }
        if r.value > 0 {
          off := off + r.value;
        }
        if off0 <= |c0| && i + n1 <= Room(off0, readable) {
          TurnWhole(c0, was, c, m0, m1, fs.m, inum, off0, src, readable, i, r.value);
        } else {
          TurnShort(c0, was, c, m0, m1, fs.m, inum, off0, src, readable, i, r.value);
        }
        if r.value != n1 {
          return Some(-1);
        }
        i := i + n1;
      }
      if src != [] {
        EndsWhole(c0, fs.Contents(inum), m0, fs.m, inum, off0, src, readable);
      }
      return Some(|src|);
    }
  }
}
