/**
 The block allocator, the block map of a file and byte-level reads and writes
 (kernel/fs.c:50-103, 225-246, 378-517), on the flat block map that the buffer
 cache and the log provide (modules Bio and Log): v[b] is what bread(b) shows.
 */
module Fs {
  import opened Block
  import opened BlockMap
  import opened Common

  const IPB := 16                       // inodes per block
  const LIMIT := 274432                 // MAXFILE * BSIZE

  /** The super block; first is the first data block, after the bitmap. */
  datatype Sb = Sb(size: nat, ninodes: nat, inodestart: nat, bmapstart: nat, first: nat) {
    /** Where mkfs puts things on a disk of n blocks. */
    ghost predicate Ok(n: nat) {
      && 0 < first <= size <= n && size < WORD_LIMIT
      && inodestart + (ninodes + IPB - 1) / IPB <= bmapstart
      && bmapstart + (size + BPB - 1) / BPB <= first
    }

    function BBlock(b: nat): nat { b / BPB + bmapstart }

    function IBlock(i: nat): nat { i / IPB + inodestart }
  }

  /** The in-memory inode: head is type, major, minor and nlink, as two words. */
  datatype Inode = Inode(head: seq<nat>, size: nat, addrs: seq<nat>)

  ghost predicate InodeOk(ip: Inode) {
    && |ip.head| == 2 && |ip.addrs| == NDIRECT + 1 && ip.size <= LIMIT
    && (forall k :: 0 <= k < 2 ==> ip.head[k] < WORD_LIMIT)
    && (forall k :: 0 <= k < |ip.addrs| ==> ip.addrs[k] < WORD_LIMIT)
  }

  // ---- the bitmap ----

  predicate Used(sb: Sb, v: Disk, b: nat)
    requires sb.BBlock(b) < |v|
  {
    Bit(v[sb.BBlock(b)], b % BPB)
  }

  function Marked(sb: Sb, v: Disk, b: nat, on: bool): (r: Disk)
    requires sb.BBlock(b) < |v|
    ensures |r| == |v|
  {
    v[sb.BBlock(b) := PutBit(v[sb.BBlock(b)], b % BPB, on)]
  }

  lemma BBlockIn(sb: Sb, n: nat, b: nat)
    requires sb.Ok(n) && b < sb.size
    ensures sb.bmapstart <= sb.BBlock(b) < sb.first && BitmapBlock(sb, sb.BBlock(b))
  {
  }

  lemma IBlockIn(sb: Sb, n: nat, i: nat)
    requires sb.Ok(n) && i < sb.ninodes
    ensures sb.inodestart <= sb.IBlock(i) < sb.bmapstart
  {
  }

  lemma MarkedUsed(sb: Sb, v: Disk, b: nat, on: bool, c: nat)
    requires sb.Ok(|v|) && b < sb.size && c < sb.size && sb.BBlock(b) < |v| && sb.BBlock(c) < |v|
    ensures Used(sb, Marked(sb, v, b, on), c) == if c == b then on else Used(sb, v, c)
  {
  }

  // ---- the block numbers that inodes hold ----

  /** The block number in slot k of an inode. */
  function Ref(v: Disk, ip: Inode, k: nat): nat
    requires |ip.addrs| == NDIRECT + 1 && k < SLOTS
  {
    if k <= NDIRECT then ip.addrs[k]
    else if ip.addrs[NDIRECT] == 0 || ip.addrs[NDIRECT] >= |v| then 0
    else Word(v[ip.addrs[NDIRECT]], k - NDIRECT - 1)
  }

  ghost predicate BitOk(sb: Sb, v: Disk, used: seq<bool>, b: nat)
    requires b < |used|
  {
    sb.BBlock(b) < |v| && (used[b] <==> Used(sb, v, b))
  }

  ghost predicate RefOk(v: Disk, ins: seq<Inode>, m: Map, i: nat, k: nat)
    requires i < |ins| == |m.refs| && k < |m.refs[i]|
  {
    k < SLOTS && |ins[i].addrs| == NDIRECT + 1 && m.refs[i][k] == Ref(v, ins[i], k)
  }

  /** Bit bi of the bitmap block that starts with block b. */
  lemma BitAt(sb: Sb, v: Disk, used: seq<bool>, b: nat, bi: nat)
    requires b % BPB == 0 && bi < BPB && b + bi < |used| && BitOk(sb, v, used, b + bi)
    ensures sb.BBlock(b) < |v| && (used[b + bi] <==> Bit(v[sb.BBlock(b)], bi))
  {
    assert (b + bi) / BPB == b / BPB && (b + bi) % BPB == bi;
  }

  /** The disk blocks v and the inodes show the map m. */
  ghost predicate Shows(sb: Sb, v: Disk, ins: seq<Inode>, m: Map) {
    && |m.used| == sb.size && |m.refs| == |ins| == sb.ninodes
    && (forall b :: 0 <= b < |m.used| ==> BitOk(sb, v, m.used, b))
    && (forall i :: 0 <= i < |ins| ==> InodeOk(ins[i]))
    && (forall i, k :: 0 <= i < |m.refs| && 0 <= k < |m.refs[i]| ==> RefOk(v, ins, m, i, k))
  }

  ghost predicate Ok(sb: Sb, v: Disk, ins: seq<Inode>, m: Map, owner: seq<Owner>) {
    sb.Ok(|v|) && Owns(m, owner, sb.first) && Shows(sb, v, ins, m)
  }

  // ---- allocating a block ----

  /** balloc's effect: the bit is set and the block is zeroed. */
  function Allocated(sb: Sb, v: Disk, b: nat): (r: Disk)
    requires sb.BBlock(b) < |v| && b < |v|
    ensures |r| == |v|
  {
    Marked(sb, v, b, true)[b := Zeros()]
  }

  lemma AllocatedBits(sb: Sb, v: Disk, used: seq<bool>, b: nat, c: nat)
    requires sb.Ok(|v|) && sb.first <= b < sb.size == |used| && c < sb.size && BitOk(sb, v, used, c)
      && BitOk(sb, v, used, b)
    ensures BitOk(sb, Allocated(sb, v, b), used[b := true], c)
  {
    BBlockIn(sb, |v|, c);
    BBlockIn(sb, |v|, b);
    MarkedUsed(sb, v, b, true, c);
  }

  lemma AllocatedBlock(sb: Sb, v: Disk, b: nat, c: nat)
    requires sb.Ok(|v|) && sb.first <= b < sb.size && c < |v| && sb.BBlock(b) < |v|
    ensures c >= sb.first || c < sb.bmapstart ==> Allocated(sb, v, b)[c] == if c == b then Zeros() else v[c]
  {
    BBlockIn(sb, |v|, b);
  }

  ghost predicate Blank(d: Data) { forall j: nat :: j < WORDS ==> Word(d, j) == 0 }

  lemma ZerosBlank()
    ensures Blank(Zeros())
  {
    forall j: nat | j < WORDS ensures Word(Zeros(), j) == 0 { }
  }

  // ---- giving a slot a block ----

  function WithAddr(ip: Inode, k: nat, b: nat): Inode
    requires k < |ip.addrs|
  {
    ip.(addrs := ip.addrs[k := b])
  }

  /** The indirect block of an inode, if it has one, is its own and not b. */
  lemma IndirectOwn(sb: Sb, v: Disk, ins: seq<Inode>, m: Map, owner: seq<Owner>, j: nat)
    requires Ok(sb, v, ins, m, owner) && j < |ins| && m.refs[j][NDIRECT] != 0
    ensures InodeOk(ins[j]) && ins[j].addrs[NDIRECT] == m.refs[j][NDIRECT]
    ensures sb.first <= m.refs[j][NDIRECT] < sb.size && owner[m.refs[j][NDIRECT]] == Slot(j, NDIRECT)
  {
    assert RefOk(v, ins, m, j, NDIRECT) && SlotOk(m, owner, sb.first, j, NDIRECT);
  }

  /** A slot's block number when the inode and its indirect block stay. */
  lemma RefSame(v: Disk, v': Disk, ip: Inode, l: nat)
    requires |ip.addrs| == NDIRECT + 1 && l < SLOTS && |v| == |v'|
    requires 0 < ip.addrs[NDIRECT] < |v| ==> v'[ip.addrs[NDIRECT]] == v[ip.addrs[NDIRECT]]
    ensures Ref(v', ip, l) == Ref(v, ip, l)
  {
  }

  lemma NewIndirect(v: Disk, ip: Inode, b: nat, l: nat)
    requires |ip.addrs| == NDIRECT + 1 && l < SLOTS && l != NDIRECT && 0 < b < |v| && Blank(v[b])
      && ip.addrs[NDIRECT] == 0
    ensures Ref(v, WithAddr(ip, NDIRECT, b), l) == Ref(v, ip, l)
  {
  }

  lemma AssignDirectRef(sb: Sb, v: Disk, ins: seq<Inode>, m: Map, owner: seq<Owner>, i: nat, k: nat, b: nat, j: nat,
                        l: nat)
    requires Ok(sb, v, ins, m, owner) && i < |ins| && k <= NDIRECT && m.refs[i][k] == 0 && b < sb.size && !m.used[b]
    requires j < |ins| && l < SLOTS && sb.BBlock(b) < |v| && InodeOk(ins[i]) && sb.first <= b && owner[b] == Free
    ensures RefOk(Allocated(sb, v, b), ins[i := WithAddr(ins[i], k, b)], Assign(m, i, k, b), j, l)
  {
    assert RefOk(v, ins, m, j, l) && RefOk(v, ins, m, j, NDIRECT) && RefOk(v, ins, m, i, k);
    AllocatedBlock(sb, v, b, b);
    ZerosBlank();
    if m.refs[j][NDIRECT] != 0 {
      IndirectOwn(sb, v, ins, m, owner, j);
      AllocatedBlock(sb, v, b, m.refs[j][NDIRECT]);
    }
    RefSame(v, Allocated(sb, v, b), ins[j], l);
    if j == i && l != k {
      if k == NDIRECT { NewIndirect(Allocated(sb, v, b), ins[i], b, l); }
    }
  }

  lemma AssignDirect(sb: Sb, v: Disk, ins: seq<Inode>, m: Map, owner: seq<Owner>, i: nat, k: nat, b: nat)
    requires Ok(sb, v, ins, m, owner) && i < |ins| && k <= NDIRECT && m.refs[i][k] == 0 && b < sb.size && !m.used[b]
    ensures InodeOk(ins[i]) && sb.BBlock(b) < |v| && sb.first <= b && owner[b] == Free
    ensures Ok(sb, Allocated(sb, v, b), ins[i := WithAddr(ins[i], k, b)], Assign(m, i, k, b), owner[b := Slot(i, k)])
  {
    BBlockIn(sb, |v|, b);
    AssignOwns(m, owner, sb.first, i, k, b);
    var v', ins', m' := Allocated(sb, v, b), ins[i := WithAddr(ins[i], k, b)], Assign(m, i, k, b);
    forall c | 0 <= c < |m'.used| ensures BitOk(sb, v', m'.used, c) {
      assert BitOk(sb, v, m.used, c) && BitOk(sb, v, m.used, b);
      AllocatedBits(sb, v, m.used, b, c);
    }
    forall j, l | 0 <= j < |m'.refs| && 0 <= l < |m'.refs[j]| ensures RefOk(v', ins', m', j, l) {
      AssignDirectRef(sb, v, ins, m, owner, i, k, b, j, l);
    }
  }

  /** balloc for entry k of the indirect block ind, and the entry. */
  function Entered(sb: Sb, v: Disk, b: nat, ind: nat, k: nat): (r: Disk)
    requires sb.BBlock(b) < |v| && b < |v| && ind < |v| && NDIRECT < k < SLOTS && b < WORD_LIMIT
    ensures |r| == |v|
  {
    var w := Allocated(sb, v, b);
    w[ind := SetWord(w[ind], k - NDIRECT - 1, b)]
  }

  lemma AssignEntryRef(sb: Sb, v: Disk, ins: seq<Inode>, m: Map, owner: seq<Owner>, i: nat, k: nat, b: nat, j: nat,
                       l: nat)
    requires Ok(sb, v, ins, m, owner) && i < |ins| && NDIRECT < k < SLOTS && m.refs[i][k] == 0
      && m.refs[i][NDIRECT] != 0
    requires b < sb.size && !m.used[b] && j < |ins| && l < SLOTS
    requires sb.BBlock(b) < |v| && m.refs[i][NDIRECT] < |v| && sb.first <= b && owner[b] == Free
    ensures RefOk(Entered(sb, v, b, m.refs[i][NDIRECT], k), ins, Assign(m, i, k, b), j, l)
  {
    assert RefOk(v, ins, m, j, l) && RefOk(v, ins, m, j, NDIRECT);
    IndirectOwn(sb, v, ins, m, owner, i);
    AllocatedBlock(sb, v, b, m.refs[i][NDIRECT]);
    if l > NDIRECT && m.refs[j][NDIRECT] != 0 {
      IndirectOwn(sb, v, ins, m, owner, j);
      AllocatedBlock(sb, v, b, m.refs[j][NDIRECT]);
    }
  }

  lemma AssignEntry(sb: Sb, v: Disk, ins: seq<Inode>, m: Map, owner: seq<Owner>, i: nat, k: nat, b: nat)
    requires Ok(sb, v, ins, m, owner) && i < |ins| && NDIRECT < k < SLOTS && m.refs[i][k] == 0
      && m.refs[i][NDIRECT] != 0
    requires b < sb.size && !m.used[b]
    ensures sb.BBlock(b) < |v| && m.refs[i][NDIRECT] < |v| && sb.first <= b && owner[b] == Free
      && b != m.refs[i][NDIRECT]
    ensures Ok(sb, Entered(sb, v, b, m.refs[i][NDIRECT], k), ins, Assign(m, i, k, b), owner[b := Slot(i, k)])
  {
    BBlockIn(sb, |v|, b);
    IndirectOwn(sb, v, ins, m, owner, i);
    AssignOwns(m, owner, sb.first, i, k, b);
    var v', m' := Entered(sb, v, b, m.refs[i][NDIRECT], k), Assign(m, i, k, b);
    forall c | 0 <= c < |m'.used| ensures BitOk(sb, v', m'.used, c) {
      assert BitOk(sb, v, m.used, c) && BitOk(sb, v, m.used, b);
      AllocatedBits(sb, v, m.used, b, c);
      BBlockIn(sb, |v|, c);
    }
    forall j, l | 0 <= j < |m'.refs| && 0 <= l < |m'.refs[j]| ensures RefOk(v', ins, m', j, l) {
      AssignEntryRef(sb, v, ins, m, owner, i, k, b, j, l);
    }
  }

  // ---- the bytes of a file ----

  /** The slot of block bn of a file. */
  function SlotOf(bn: nat): nat { if bn < NDIRECT then bn else bn + 1 }

  /** Byte pos of the file with these slots; 0 where no block is allocated. */
  ghost function Raw(v: Disk, slots: seq<nat>, pos: nat): Byte
    requires |slots| == SLOTS && pos < LIMIT
  {
    var b := slots[SlotOf(pos / BSIZE)];
    if b == 0 || b >= |v| then 0 else v[b][pos % BSIZE]
  }

  ghost predicate SameByte(v: Disk, slots: seq<nat>, v': Disk, slots': seq<nat>, pos: nat) {
    |slots| == |slots'| == SLOTS && pos < LIMIT && Raw(v', slots', pos) == Raw(v, slots, pos)
  }

  ghost predicate SameFile(v: Disk, slots: seq<nat>, v': Disk, slots': seq<nat>) {
    forall pos :: 0 <= pos < LIMIT ==> SameByte(v, slots, v', slots', pos)
  }

  ghost predicate SameFiles(v: Disk, m: Map, v': Disk, m': Map) {
    |m'.refs| == |m.refs| && forall j :: 0 <= j < |m.refs| ==> SameFile(v, m.refs[j], v', m'.refs[j])
  }

  lemma SameFilesTrans(v: Disk, m: Map, v': Disk, m': Map, v'': Disk, m'': Map)
    requires SameFiles(v, m, v', m') && SameFiles(v', m', v'', m'')
    ensures SameFiles(v, m, v'', m'')
  {
    forall j | 0 <= j < |m.refs| ensures SameFile(v, m.refs[j], v'', m''.refs[j]) {
      assert SameFile(v, m.refs[j], v', m'.refs[j]) && SameFile(v', m'.refs[j], v'', m''.refs[j]);
      forall pos | 0 <= pos < LIMIT ensures SameByte(v, m.refs[j], v'', m''.refs[j], pos) {
        assert SameByte(v, m.refs[j], v', m'.refs[j], pos) && SameByte(v', m'.refs[j], v'', m''.refs[j], pos);
      }
    }
  }

  /**
   Allocating block b for slot k of inode i, with changes to no other data block but the
   indirect block ind of i, changes no byte.
   */
  lemma AssignBytes(sb: Sb, v: Disk, v': Disk, m: Map, owner: seq<Owner>, i: nat, k: nat, b: nat, ind: nat)
    requires Owns(m, owner, sb.first) && i < |m.refs| && k < SLOTS && m.refs[i][k] == 0 && b < |m.used| && !m.used[b]
    requires |v'| == |v| && b < |v| && v'[b] == Zeros() && (ind == 0 || m.refs[i][NDIRECT] == ind)
    requires forall c :: sb.first <= c < |v| && c != b && c != ind ==> v'[c] == v[c]
    ensures SameFiles(v, m, v', Assign(m, i, k, b))
  {
    var m' := Assign(m, i, k, b);
    forall j | 0 <= j < |m.refs| ensures SameFile(v, m.refs[j], v', m'.refs[j]) {
      forall pos | 0 <= pos < LIMIT ensures SameByte(v, m.refs[j], v', m'.refs[j], pos) {
        AssignByte(sb, v, v', m, owner, i, k, b, ind, j, pos);
      }
    }
  }

  lemma AssignByte(sb: Sb, v: Disk, v': Disk, m: Map, owner: seq<Owner>, i: nat, k: nat, b: nat, ind: nat, j: nat,
                   pos: nat)
    requires Owns(m, owner, sb.first) && i < |m.refs| && k < SLOTS && m.refs[i][k] == 0 && b < |m.used| && !m.used[b]
    requires |v'| == |v| && b < |v| && v'[b] == Zeros() && (ind == 0 || m.refs[i][NDIRECT] == ind)
    requires forall c :: sb.first <= c < |v| && c != b && c != ind ==> v'[c] == v[c]
    requires j < |m.refs| && pos < LIMIT
    ensures SameByte(v, m.refs[j], v', Assign(m, i, k, b).refs[j], pos)
  {
    var s := SlotOf(pos / BSIZE);
    assert BlockOk(m, owner, sb.first, b) && SlotOk(m, owner, sb.first, j, s) && SlotOk(m, owner, sb.first, i, NDIRECT);
    var c := m.refs[j][s];
    if c != 0 {
      assert c != b;
      assert ind != 0 ==> c != ind;
    }
  }

  // ---- writing to a data block ----

  /** Block c belongs to slot k of inode i and is not an indirect block: its bytes are file bytes and nothing else. */
  lemma WriteOk(sb: Sb, v: Disk, ins: seq<Inode>, m: Map, owner: seq<Owner>, i: nat, k: nat, c: nat, d: Data)
    requires Ok(sb, v, ins, m, owner) && i < |ins| && k < SLOTS && k != NDIRECT && c == m.refs[i][k] && c != 0
    ensures sb.first <= c < sb.size && Ok(sb, v[c := d], ins, m, owner)
  {
    assert SlotOk(m, owner, sb.first, i, k);
    var v' := v[c := d];
    forall b | 0 <= b < |m.used| ensures BitOk(sb, v', m.used, b) {
      assert BitOk(sb, v, m.used, b);
      BBlockIn(sb, |v|, b);
    }
    forall j, l | 0 <= j < |m.refs| && 0 <= l < |m.refs[j]| ensures RefOk(v', ins, m, j, l) {
      assert RefOk(v, ins, m, j, l) && RefOk(v, ins, m, j, NDIRECT);
      if m.refs[j][NDIRECT] != 0 { IndirectOwn(sb, v, ins, m, owner, j); }
      RefSame(v, v', ins[j], l);
    }
  }

  lemma WriteByte(v: Disk, m: Map, owner: seq<Owner>, first: nat, i: nat, k: nat, c: nat, d: Data, j: nat, pos: nat)
    requires Owns(m, owner, first) && i < |m.refs| && k < SLOTS && c == m.refs[i][k] && 0 != c < |v|
      && j < |m.refs| && pos < LIMIT
    ensures |m.refs[j]| == SLOTS
    ensures Raw(v[c := d], m.refs[j], pos) == if j == i && SlotOf(pos / BSIZE) == k then d[pos % BSIZE]
      else Raw(v, m.refs[j], pos)
  {
    assert SlotOk(m, owner, first, i, k) && SlotOk(m, owner, first, j, SlotOf(pos / BSIZE));
  }

  /** c is a block of the bitmap. */
  ghost predicate BitmapBlock(sb: Sb, c: nat) { sb.bmapstart <= c && c * BPB < sb.bmapstart * BPB + sb.size }

  /** What giving blocks to inode i leaves alone: the other inodes, filled slots, and the inode blocks on disk. */
  ghost predicate Grows(sb: Sb, v: Disk, ins: seq<Inode>, m: Map, v': Disk, ins': seq<Inode>, m': Map, i: nat, k: nat) {
    && |v'| == |v| && |ins'| == |ins| && |m'.refs| == |m.refs| && i < |ins|
    && (forall j :: 0 <= j < |ins| && j != i ==> ins'[j] == ins[j])
    && (forall j :: 0 <= j < |m.refs| && j != i ==> m'.refs[j] == m.refs[j])
    && ins'[i].size == ins[i].size && ins'[i].head == ins[i].head
    && (i < |m.refs| ==> |m'.refs[i]| == |m.refs[i]| && forall l ::
        0 <= l < |m.refs[i]| && (m.refs[i][l] != 0 || (l != k && l != NDIRECT)) ==> m'.refs[i][l] == m.refs[i][l])
    && (forall c :: 0 <= c < sb.bmapstart && c < |v| ==> v'[c] == v[c])
  }

  lemma DirectKeeps(sb: Sb, v: Disk, ins: seq<Inode>, m: Map, owner: seq<Owner>, i: nat, k: nat, b: nat)
    requires Ok(sb, v, ins, m, owner) && i < |ins| && k <= NDIRECT && m.refs[i][k] == 0 && b < sb.size && !m.used[b]
    requires sb.BBlock(b) < |v| && InodeOk(ins[i])
    ensures
      var v', ins', m' := Allocated(sb, v, b), ins[i := WithAddr(ins[i], k, b)], Assign(m, i, k, b);
      b != 0 && SameFiles(v, m, v', m') && Grows(sb, v, ins, m, v', ins', m', i, k)
  {
    AssignDirect(sb, v, ins, m, owner, i, k, b);
    var v' := Allocated(sb, v, b);
    forall c | sb.first <= c < |v| ensures v'[c] == if c == b then Zeros() else v[c] { AllocatedBlock(sb, v, b, c); }
    forall c | 0 <= c < sb.bmapstart && c < |v| ensures v'[c] == v[c] { AllocatedBlock(sb, v, b, c); }
    AssignBytes(sb, v, v', m, owner, i, k, b, 0);
  }

  lemma EntryKeeps(sb: Sb, v: Disk, ins: seq<Inode>, m: Map, owner: seq<Owner>, i: nat, k: nat, b: nat)
    requires Ok(sb, v, ins, m, owner) && i < |ins| && NDIRECT < k < SLOTS && m.refs[i][k] == 0
      && m.refs[i][NDIRECT] != 0
    requires b < sb.size && !m.used[b] && sb.BBlock(b) < |v| && m.refs[i][NDIRECT] < |v|
    ensures
      var v', m' := Entered(sb, v, b, m.refs[i][NDIRECT], k), Assign(m, i, k, b);
      b != 0 && SameFiles(v, m, v', m') && Grows(sb, v, ins, m, v', ins, m', i, k)
  {
    var ind := m.refs[i][NDIRECT];
    AssignEntry(sb, v, ins, m, owner, i, k, b);
    IndirectOwn(sb, v, ins, m, owner, i);
    var v' := Entered(sb, v, b, ind, k);
    forall c | sb.first <= c < |v| && c != ind ensures v'[c] == if c == b then Zeros() else v[c] {
      AllocatedBlock(sb, v, b, c);
    }
    forall c | 0 <= c < sb.bmapstart && c < |v| ensures v'[c] == v[c] { AllocatedBlock(sb, v, b, c); }
    AssignBytes(sb, v, v', m, owner, i, k, b, ind);
  }

  // ---- reading ----

  ghost predicate HasBlock(slots: seq<nat>, bn: nat) { SlotOf(bn) < |slots| && slots[SlotOf(bn)] != 0 }

  /** A file has a block wherever it has bytes. */
  ghost predicate Mapped(slots: seq<nat>, size: nat) {
    |slots| == SLOTS && size <= LIMIT && forall bn :: 0 <= bn && bn * BSIZE < size ==> HasBlock(slots, bn)
  }

  ghost predicate AllMapped(ins: seq<Inode>, m: Map) {
    |ins| == |m.refs| && forall i :: 0 <= i < |ins| ==> Mapped(m.refs[i], ins[i].size)
  }

  /** The contents of a file. */
  ghost function Bytes(v: Disk, slots: seq<nat>, size: nat): (c: seq<Byte>)
    requires |slots| == SLOTS && size <= LIMIT
    ensures |c| == size && forall pos :: 0 <= pos < size ==> c[pos] == Raw(v, slots, pos)
  {
    seq(size, pos requires 0 <= pos < size => Raw(v, slots, pos))
  }

  lemma RawSlice(v: Disk, slots: seq<nat>, size: nat, off: nat, len: nat, b: nat)
    requires |slots| == SLOTS && off + len <= size <= LIMIT && off % BSIZE + len <= BSIZE
    requires len > 0 ==> b == slots[SlotOf(off / BSIZE)] && 0 < b < |v|
    ensures b < |v| && len > 0 ==> v[b][off % BSIZE..off % BSIZE + len] == Bytes(v, slots, size)[off..off + len]
  {
    if len > 0 {
      var x, y := v[b][off % BSIZE..off % BSIZE + len], Bytes(v, slots, size)[off..off + len];
      forall i | 0 <= i < len ensures x[i] == y[i] {
        assert (off + i) / BSIZE == off / BSIZE && (off + i) % BSIZE == off % BSIZE + i;
      }
    }
  }

  // ---- writing ----

  function Overwrite(d: Data, o: nat, w: seq<Byte>): (r: Data)
    requires o + |w| <= BSIZE
  {
    d[..o] + w + d[o + |w|..]
  }

  /** Bytes off .. off + |w| - 1 are w, and byte pos is as before elsewhere. */
  ghost predicate WroteByte(v: Disk, slots: seq<nat>, v': Disk, slots': seq<nat>, off: nat, w: seq<Byte>, pos: nat) {
    && |slots| == |slots'| == SLOTS && pos < LIMIT
    && Raw(v', slots', pos) == if off <= pos < off + |w| then w[pos - off] else Raw(v, slots, pos)
  }

  ghost predicate Wrote(v: Disk, slots: seq<nat>, v': Disk, slots': seq<nat>, off: nat, w: seq<Byte>) {
    forall pos :: 0 <= pos < LIMIT ==> WroteByte(v, slots, v', slots', off, w, pos)
  }

  ghost predicate OthersSame(v: Disk, m: Map, v': Disk, m': Map, i: nat) {
    |m'.refs| == |m.refs| && forall j :: 0 <= j < |m.refs| && j != i ==> SameFile(v, m.refs[j], v', m'.refs[j])
  }

  lemma WroteThen(v: Disk, s: seq<nat>, v': Disk, s': seq<nat>, v'': Disk, s'': seq<nat>, off: nat, w: seq<Byte>,
                  x: seq<Byte>)
    requires Wrote(v, s, v', s', off, w) && Wrote(v', s', v'', s'', off + |w|, x)
    ensures Wrote(v, s, v'', s'', off, w + x)
  {
    forall pos | 0 <= pos < LIMIT ensures WroteByte(v, s, v'', s'', off, w + x, pos) {
      assert WroteByte(v, s, v', s', off, w, pos) && WroteByte(v', s', v'', s'', off + |w|, x, pos);
    }
  }

  lemma OthersThen(v: Disk, m: Map, v': Disk, m': Map, v'': Disk, m'': Map, i: nat)
    requires OthersSame(v, m, v', m', i) && OthersSame(v', m', v'', m'', i)
    ensures OthersSame(v, m, v'', m'', i)
  {
    forall j | 0 <= j < |m.refs| && j != i ensures SameFile(v, m.refs[j], v'', m''.refs[j]) {
      assert SameFile(v, m.refs[j], v', m'.refs[j]) && SameFile(v', m'.refs[j], v'', m''.refs[j]);
      forall pos | 0 <= pos < LIMIT ensures SameByte(v, m.refs[j], v'', m''.refs[j], pos) {
        assert SameByte(v, m.refs[j], v', m'.refs[j], pos) && SameByte(v', m'.refs[j], v'', m''.refs[j], pos);
      }
    }
  }

  lemma WroteNothing(v: Disk, m: Map, v': Disk, m': Map, i: nat, off: nat)
    requires SameFiles(v, m, v', m') && i < |m.refs|
    ensures Wrote(v, m.refs[i], v', m'.refs[i], off, []) && OthersSame(v, m, v', m', i)
  {
    assert SameFile(v, m.refs[i], v', m'.refs[i]);
    forall pos | 0 <= pos < LIMIT ensures WroteByte(v, m.refs[i], v', m'.refs[i], off, [], pos) {
      assert SameByte(v, m.refs[i], v', m'.refs[i], pos);
    }
  }

  /** Overwriting part of one block of file i. */
  lemma WriteBlock(v: Disk, m: Map, owner: seq<Owner>, first: nat, i: nat, c: nat, off: nat, w: seq<Byte>)
    requires Owns(m, owner, first) && i < |m.refs| && off < LIMIT && off % BSIZE + |w| <= BSIZE
      && c == m.refs[i][SlotOf(off / BSIZE)] && 0 != c < |v|
    ensures
      var v' := v[c := Overwrite(v[c], off % BSIZE, w)];
      Wrote(v, m.refs[i], v', m.refs[i], off, w) && OthersSame(v, m, v', m, i)
  {
    var d := Overwrite(v[c], off % BSIZE, w);
    var v' := v[c := d];
    var k := SlotOf(off / BSIZE);
    forall pos | 0 <= pos < LIMIT ensures WroteByte(v, m.refs[i], v', m.refs[i], off, w, pos) {
      WriteByte(v, m, owner, first, i, k, c, d, i, pos);
      assert SlotOf(pos / BSIZE) == k <==> pos / BSIZE == off / BSIZE;
    }
    forall j | 0 <= j < |m.refs| && j != i ensures SameFile(v, m.refs[j], v', m.refs[j]) {
      forall pos | 0 <= pos < LIMIT ensures SameByte(v, m.refs[j], v', m.refs[j], pos) {
        WriteByte(v, m, owner, first, i, k, c, d, j, pos);
      }
    }
  }

  /** What a write to inode i keeps: the other inodes, filled slots, and the inode blocks on disk. */
  ghost predicate Extends(sb: Sb, v: Disk, ins: seq<Inode>, m: Map, v': Disk, ins': seq<Inode>, m': Map, i: nat) {
    && |v'| == |v| && |ins'| == |ins| && |m'.refs| == |m.refs| && i < |ins|
    && (forall j :: 0 <= j < |ins| && j != i ==> ins'[j] == ins[j])
    && (forall j :: 0 <= j < |m.refs| && j != i ==> m'.refs[j] == m.refs[j])
    && ins'[i].size == ins[i].size && ins'[i].head == ins[i].head
    && (i < |m.refs| ==> |m'.refs[i]| == |m.refs[i]| && forall l :: 0 <= l < |m.refs[i]| && m.refs[i][l] != 0 ==>
        m'.refs[i][l] == m.refs[i][l])
    && (forall c :: 0 <= c < sb.bmapstart && c < |v| ==> v'[c] == v[c])
  }

  lemma ExtendsThen(sb: Sb, v: Disk, ins: seq<Inode>, m: Map, v': Disk, ins': seq<Inode>, m': Map, v'': Disk,
                    ins'': seq<Inode>, m'': Map, i: nat)
    requires Extends(sb, v, ins, m, v', ins', m', i) && Extends(sb, v', ins', m', v'', ins'', m'', i)
    ensures Extends(sb, v, ins, m, v'', ins'', m'', i)
  {
  }

  // ---- inodes on disk ----

  /** Word w of the on-disk form of an inode. */
  function Field(ip: Inode, w: nat): nat
    requires |ip.head| == 2 && |ip.addrs| == NDIRECT + 1 && w < IPB
  {
    if w < 2 then ip.head[w] else if w == 2 then ip.size else ip.addrs[w - 3]
  }

  ghost predicate SavedWord(sb: Sb, v: Disk, ip: Inode, i: nat, w: nat) {
    && |ip.head| == 2 && |ip.addrs| == NDIRECT + 1 && w < IPB && sb.IBlock(i) < |v|
    && Word(v[sb.IBlock(i)], i % IPB * IPB + w) == Field(ip, w)
  }

  /** The disk holds inode i as ip. */
  ghost predicate Saved(sb: Sb, v: Disk, ip: Inode, i: nat) {
    forall w :: 0 <= w < IPB ==> SavedWord(sb, v, ip, i, w)
  }

  /** The disk holds every inode but i as it is in memory. */
  ghost predicate SavedBut(sb: Sb, v: Disk, ins: seq<Inode>, i: int) {
    forall j :: 0 <= j < |ins| && j != i ==> Saved(sb, v, ins[j], j)
  }

  lemma SavedStays(sb: Sb, v: Disk, ins: seq<Inode>, m: Map, v': Disk, ins': seq<Inode>, m': Map, i: nat)
    requires SavedBut(sb, v, ins, i) && Extends(sb, v, ins, m, v', ins', m', i) && sb.Ok(|v|) && |ins| == sb.ninodes
    ensures SavedBut(sb, v', ins', i)
  {
    forall j | 0 <= j < |ins'| && j != i ensures Saved(sb, v', ins'[j], j) {
      IBlockIn(sb, |v|, j);
      assert Saved(sb, v, ins[j], j);
      forall w | 0 <= w < IPB ensures SavedWord(sb, v', ins'[j], j, w) { assert SavedWord(sb, v, ins[j], j, w); }
    }
  }

  /** A block of the inode area holds no bitmap bits, block numbers or file bytes. */
  lemma MetaWrite(sb: Sb, v: Disk, ins: seq<Inode>, m: Map, owner: seq<Owner>, c: nat, d: Data)
    requires Ok(sb, v, ins, m, owner) && c < sb.bmapstart && c < |v|
    ensures Ok(sb, v[c := d], ins, m, owner) && SameFiles(v, m, v[c := d], m)
  {
    var v' := v[c := d];
    forall b | 0 <= b < |m.used| ensures BitOk(sb, v', m.used, b) {
      assert BitOk(sb, v, m.used, b);
      BBlockIn(sb, |v|, b);
    }
    forall j, l | 0 <= j < |m.refs| && 0 <= l < |m.refs[j]| ensures RefOk(v', ins, m, j, l) {
      assert RefOk(v, ins, m, j, l) && RefOk(v, ins, m, j, NDIRECT);
      if m.refs[j][NDIRECT] != 0 { IndirectOwn(sb, v, ins, m, owner, j); }
      RefSame(v, v', ins[j], l);
    }
    forall j | 0 <= j < |m.refs| ensures SameFile(v, m.refs[j], v', m.refs[j]) {
      forall pos | 0 <= pos < LIMIT ensures SameByte(v, m.refs[j], v', m.refs[j], pos) {
        assert SlotOk(m, owner, sb.first, j, SlotOf(pos / BSIZE));
      }
    }
  }

  lemma Resize(sb: Sb, v: Disk, ins: seq<Inode>, m: Map, owner: seq<Owner>, i: nat, size: nat)
    requires Ok(sb, v, ins, m, owner) && i < |ins| && size <= LIMIT
    ensures Ok(sb, v, ins[i := ins[i].(size := size)], m, owner)
  {
    var ins' := ins[i := ins[i].(size := size)];
    assert InodeOk(ins[i]);
    forall j, l | 0 <= j < |m.refs| && 0 <= l < |m.refs[j]| ensures RefOk(v, ins', m, j, l) {
      assert RefOk(v, ins, m, j, l);
    }
  }

  /** Two inodes do not share a word of a block. */
  lemma SlotsApart(i: nat, j: nat, w: nat, x: nat)
    requires i != j && i / IPB == j / IPB && w < IPB && x < IPB
    ensures i % IPB * IPB + w != j % IPB * IPB + x
  {
  }

  ghost predicate Stored(d: Data, d': Data, ip: Inode, base: nat, n: nat)
    requires |ip.head| == 2 && |ip.addrs| == NDIRECT + 1 && n <= IPB && base + IPB <= WORDS
  {
    forall x: nat :: x < WORDS ==> Word(d', x) == if base <= x < base + n then Field(ip, x - base) else Word(d, x)
  }

  lemma StoredSaves(sb: Sb, v: Disk, ins: seq<Inode>, i: nat, d': Data)
    requires sb.Ok(|v|) && i < |ins| == sb.ninodes && SavedBut(sb, v, ins, i) && sb.IBlock(i) < |v|
    requires InodeOk(ins[i]) && Stored(v[sb.IBlock(i)], d', ins[i], i % IPB * IPB, IPB)
    ensures SavedBut(sb, v[sb.IBlock(i) := d'], ins, -1)
  {
    var v' := v[sb.IBlock(i) := d'];
    forall j | 0 <= j < |ins| ensures Saved(sb, v', ins[j], j) {
      IBlockIn(sb, |v|, j);
      forall w | 0 <= w < IPB ensures SavedWord(sb, v', ins[j], j, w) {
        if j != i {
          assert Saved(sb, v, ins[j], j) && SavedWord(sb, v, ins[j], j, w);
          if sb.IBlock(j) == sb.IBlock(i) {
            var x := i % IPB * IPB;
            assert !(x <= j % IPB * IPB + w < x + IPB) by {
              if x <= j % IPB * IPB + w < x + IPB { SlotsApart(i, j, j % IPB * IPB + w - x, w); }
            }
          }
        }
      }
    }
  }

  // ---- the loop of writei ----

  /** c is the block of one of the blocks lo .. hi - 1 of a file. */
  ghost predicate InSpan(slots: seq<nat>, lo: nat, hi: nat, c: nat) {
    exists bn :: lo <= bn < hi && SlotOf(bn) < |slots| && c == slots[SlotOf(bn)]
  }

  /** Block c of the log is an old one, a bitmap block, the indirect block or a data block in the span. */
  ghost predicate LoggedBlock(sb: Sb, was: set<nat>, slots: seq<nat>, lo: nat, hi: nat, c: nat) {
    |slots| == SLOTS && (c in was || BitmapBlock(sb, c) ||
                         (c != 0 && (c == slots[NDIRECT] || InSpan(slots, lo, hi, c))))
  }

  ghost predicate LoggedIn(sb: Sb, was: set<nat>, logged: set<nat>, slots: seq<nat>, lo: nat, hi: nat) {
    forall c :: c in logged ==> LoggedBlock(sb, was, slots, lo, hi, c)
  }

  lemma LoggedLater(sb: Sb, was: set<nat>, logged: set<nat>, slots: seq<nat>, lo: nat, hi: nat, logged': set<nat>,
                    slots': seq<nat>, bn: nat)
    requires LoggedIn(sb, was, logged, slots, lo, hi) && |slots| == |slots'| == SLOTS && lo <= bn < MAXFILE
      && (bn == hi || bn + 1 == hi)
    requires forall l :: 0 <= l < SLOTS && slots[l] != 0 ==> slots'[l] == slots[l]
    requires forall c :: c in logged' ==>
      c in logged || BitmapBlock(sb, c) || (c != 0 && (c == slots'[NDIRECT] || c == slots'[SlotOf(bn)]))
    ensures LoggedIn(sb, was, logged', slots', lo, bn + 1)
  {
    forall c | c in logged' ensures LoggedBlock(sb, was, slots', lo, bn + 1, c) {
      if c in logged {
        assert LoggedBlock(sb, was, slots, lo, hi, c);
        if InSpan(slots, lo, hi, c) && c != 0 {
          var x :| lo <= x < hi && SlotOf(x) < |slots| && c == slots[SlotOf(x)];
          assert c == slots'[SlotOf(x)];
        }
      } else if c != 0 && c == slots'[SlotOf(bn)] {
        assert InSpan(slots', lo, bn + 1, c);
      }
    }
  }

  /** How far writei gets with n bytes at off when only the first readable ones can be read: to the end of a block. */
  ghost predicate Stops(off: nat, n: nat, readable: nat, tot: nat) {
    && tot <= n && (tot == 0 || tot == n || (off + tot) % BSIZE == 0)
    && (readable >= n <==> tot == n)
    && (tot == n || tot <= readable < tot + BSIZE - (off + tot) % BSIZE)
  }

  /** The place where writei stops, from what its caller knows. */
  function StopAt(off: nat, n: nat, readable: nat): nat {
    var end := (off + readable) / BSIZE * BSIZE;
    if readable >= n then n else if end <= off then 0 else end - off
  }

  lemma StopsIs(off: nat, n: nat, readable: nat, tot: nat)
    ensures Stops(off, n, readable, tot) <==> tot == StopAt(off, n, readable)
  {
    var end := (off + readable) / BSIZE * BSIZE;
    assert end <= off + readable < end + BSIZE;
    if Stops(off, n, readable, tot) && tot < n {
      assert (off + tot) / BSIZE == (off + readable) / BSIZE;
      assert tot == 0 || off + tot == end;
    }
  }

  /** One more than the last block that writei asks bmap for, or the first if it asks for none. */
  function HiAt(off: nat, n: nat, readable: nat): nat {
    var tot := StopAt(off, n, readable);
    if n == 0 then off / BSIZE else (off + if tot == n then n - 1 else tot) / BSIZE + 1
  }

  /** The turn of the loop that starts after tot bytes is one of those, and the last if its copy fails. */
  lemma TurnBefore(off: nat, n: nat, readable: nat, tot: nat)
    requires tot < n && tot <= readable && (tot == 0 || (off + tot) % BSIZE == 0)
    ensures (off + tot) / BSIZE + 1 <= HiAt(off, n, readable)
    ensures readable < tot + ChunkLen(off + tot, n - tot) ==>
      tot == StopAt(off, n, readable) && (off + tot) / BSIZE + 1 == HiAt(off, n, readable)
  {
    var end := (off + readable) / BSIZE * BSIZE;
    assert end <= off + readable < end + BSIZE;
    if readable < tot + ChunkLen(off + tot, n - tot) { StopsIs(off, n, readable, tot); }
  }

  /** The next turn. */
  lemma TurnAfter(off: nat, n: nat, tot: nat)
    requires tot < n && (tot == 0 || (off + tot) % BSIZE == 0)
    ensures
      var tot' := tot + ChunkLen(off + tot, n - tot);
      && tot < tot' <= n && (tot' < n ==> (off + tot') % BSIZE == 0 && (off + tot) / BSIZE + 1 == (off + tot') / BSIZE)
      && HiTo(off, n, tot) == (off + tot) / BSIZE && HiTo(off, n, tot') == (off + tot) / BSIZE + 1
      && (off + tot) % BSIZE + (tot' - tot) <= BSIZE
  {
    ChunkFits(off + tot, n - tot);
  }

  lemma ReachMore(size: nat, off: nat, tot: nat, len: nat)
    ensures
      var mapped := Reach(size, off, tot);
      Reach(size, off, tot + len) == if off + tot + len > mapped then off + tot + len else mapped
  {
  }

  /** The slots that block bn of a file needs. */
  function Needs(bn: nat): set<nat> { if bn < NDIRECT then {bn} else {NDIRECT, bn + 1} }

  function NeedsAll(lo: nat, hi: nat): set<nat> {
    if hi <= lo then {} else NeedsAll(lo, hi - 1) + Needs(hi - 1)
  }

  /** One more than the last block of the first tot of n bytes, or the block of the next byte. */
  function HiTo(off: nat, n: nat, tot: nat): nat {
    if tot < n || tot == 0 then (off + tot) / BSIZE else (off + n - 1) / BSIZE + 1
  }

  lemma HiBound(off: nat, n: nat, readable: nat)
    ensures HiAt(off, n, readable) * BSIZE < off + n + BSIZE
  {
    StopsIs(off, n, readable, StopAt(off, n, readable));
  }

  lemma TurnFails(m: Map, i: nat, lo: nat, hi: nat, hi': nat)
    requires TooFew(m, i, NeedsAll(lo, hi)) && hi <= hi'
    ensures TooFew(m, i, NeedsAll(lo, hi'))
  {
    NeedsMore(lo, hi, hi');
    TooFewMore(m, i, NeedsAll(lo, hi), NeedsAll(lo, hi'));
  }

  lemma {:induction false} NeedsMore(lo: nat, hi: nat, hi': nat)
    requires hi <= hi'
    ensures NeedsAll(lo, hi) <= NeedsAll(lo, hi')
  {
    if hi < hi' { NeedsMore(lo, hi, hi' - 1); }
  }

  lemma MappedMore(slots: seq<nat>, slots': seq<nat>, size: nat, off: nat, len: nat)
    requires Mapped(slots, size) && |slots'| == SLOTS && off <= size && off + len <= LIMIT && off % BSIZE + len <= BSIZE
    requires forall l :: 0 <= l < SLOTS && slots[l] != 0 ==> slots'[l] == slots[l]
    requires HasBlock(slots', off / BSIZE)
    ensures Mapped(slots', size) && Mapped(slots', if off + len > size then off + len else size)
  {
    var size' := if off + len > size then off + len else size;
    forall bn | 0 <= bn && bn * BSIZE < size' ensures HasBlock(slots', bn) {
      if bn * BSIZE < size { assert HasBlock(slots, bn); } else { assert bn == off / BSIZE; }
    }
  }

  /** c with w at off, which may go past the end. */
  function Splice<T>(c: seq<T>, off: nat, w: seq<T>): seq<T>
    requires off <= |c|
  {
    c[..off] + w + (if off + |w| < |c| then c[off + |w|..] else [])
  }

  lemma WroteSplice(v: Disk, slots: seq<nat>, v': Disk, slots': seq<nat>, off: nat, w: seq<Byte>, size: nat, size': nat)
    requires Wrote(v, slots, v', slots', off, w) && |slots| == |slots'| == SLOTS && off <= size <= size' <= LIMIT
      && (size' == size || size' <= off + |w|)
    ensures size' <= |Splice(Bytes(v, slots, size), off, w)|
    ensures Bytes(v', slots', size') == Splice(Bytes(v, slots, size), off, w)[..size']
  {
    var x, y := Bytes(v', slots', size'), Splice(Bytes(v, slots, size), off, w)[..size'];
    forall pos | 0 <= pos < size' ensures x[pos] == y[pos] {
      assert WroteByte(v, slots, v', slots', off, w, pos);
    }
  }

  lemma SameBytes(v: Disk, slots: seq<nat>, v': Disk, slots': seq<nat>, size: nat)
    requires SameFile(v, slots, v', slots') && |slots| == |slots'| == SLOTS && size <= LIMIT
    ensures Bytes(v', slots', size) == Bytes(v, slots, size)
  {
    forall pos | 0 <= pos < size ensures Raw(v', slots', pos) == Raw(v, slots, pos) {
      assert SameByte(v, slots, v', slots', pos);
    }
  }

  /** The length of the chunk at o when left bytes remain: min(left, BSIZE - o % BSIZE). */
  function ChunkLen(o: nat, left: nat): nat { if left < BSIZE - o % BSIZE then left else BSIZE - o % BSIZE }

  lemma ChunkFits(o: nat, left: nat)
    requires left > 0
    ensures
      var len := ChunkLen(o, left);
      && 0 < len <= left && o % BSIZE + len <= BSIZE
      && (len == left || (o + len) % BSIZE == 0) && (len < left ==> (o + len) / BSIZE == o / BSIZE + 1)
      && (o / BSIZE + 1) * BSIZE < o + left + BSIZE && (len < left ==> len == BSIZE - o % BSIZE)
  {
    assert o == o / BSIZE * BSIZE + o % BSIZE;
  }

  /** The size of a file of this size after tot bytes were written at off. */
  function Reach(size: nat, off: nat, tot: nat): nat { if off + tot > size then off + tot else size }

  /** The file after writei returned tot: a failed copy may leave bytes behind, but not past the size. */
  ghost function AfterWrite(c: seq<Byte>, off: nat, src: seq<Byte>, readable: nat, tot: nat): seq<Byte>
    requires off <= |c| && Stops(off, |src|, readable, tot)
  {
    Splice(c, off, src[..if tot == |src| then tot else readable])[..Reach(|c|, off, tot)]
  }

  lemma AfterFullWrite(c: seq<Byte>, off: nat, src: seq<Byte>, readable: nat)
    requires off <= |c| && readable >= |src|
    ensures Stops(off, |src|, readable, |src|) && AfterWrite(c, off, src, readable, |src|) == Splice(c, off, src)
  {
    assert src[..|src|] == src;
  }

  // ---- freeing ----

  /** As Ok, with the block numbers of inode i known only to the map. */
  ghost predicate OkBut(sb: Sb, v: Disk, ins: seq<Inode>, m: Map, owner: seq<Owner>, i: nat) {
    && sb.Ok(|v|) && Owns(m, owner, sb.first)
    && |m.used| == sb.size && |m.refs| == |ins| == sb.ninodes
    && (forall b :: 0 <= b < |m.used| ==> BitOk(sb, v, m.used, b))
    && (forall j :: 0 <= j < |ins| ==> InodeOk(ins[j]))
    && (forall j, k :: 0 <= j < |m.refs| && 0 <= k < |m.refs[j]| && j != i ==> RefOk(v, ins, m, j, k))
  }

  /** Giving back the block in a slot of inode i keeps the rest in order, and every other data block. */
  lemma FreeOk(sb: Sb, v: Disk, ins: seq<Inode>, m: Map, owner: seq<Owner>, i: nat, k: nat)
    requires OkBut(sb, v, ins, m, owner, i) && i < |ins| && k < SLOTS && m.refs[i][k] != 0
    ensures
      var b := m.refs[i][k];
      && sb.first <= b < sb.size && m.used[b] && sb.BBlock(b) < |v| && Used(sb, v, b)
      && OkBut(sb, Marked(sb, v, b, false), ins, Clear(m, i, k), owner[b := Free], i)
      && (forall c :: 0 <= c < |v| && (c >= sb.first || c < sb.bmapstart) ==> Marked(sb, v, b, false)[c] == v[c])
  {
    var b := m.refs[i][k];
    ClearOwns(m, owner, sb.first, i, k);
    BBlockIn(sb, |v|, b);
    assert BitOk(sb, v, m.used, b);
    var v', m' := Marked(sb, v, b, false), Clear(m, i, k);
    forall c | 0 <= c < |m'.used| ensures BitOk(sb, v', m'.used, c) {
      assert BitOk(sb, v, m.used, c);
      BBlockIn(sb, |v|, c);
      MarkedUsed(sb, v, b, false, c);
    }
    forall j, l | 0 <= j < |m'.refs| && 0 <= l < |m'.refs[j]| && j != i ensures RefOk(v', ins, m', j, l) {
      assert RefOk(v, ins, m, j, l) && RefOk(v, ins, m, j, NDIRECT) && SlotOk(m, owner, sb.first, j, NDIRECT);
      RefSame(v, v', ins[j], l);
    }
  }

  lemma OtherInodes(sb: Sb, v: Disk, ins: seq<Inode>, m: Map, owner: seq<Owner>, i: nat, ip: Inode)
    requires OkBut(sb, v, ins, m, owner, i) && i < |ins| && InodeOk(ip)
    ensures OkBut(sb, v, ins[i := ip], m, owner, i)
  {
    var ins' := ins[i := ip];
    forall j, l | 0 <= j < |m.refs| && 0 <= l < |m.refs[j]| && j != i ensures RefOk(v, ins', m, j, l) {
      assert RefOk(v, ins, m, j, l);
    }
  }

  /** The entries of an inode are the words of its indirect block. */
  lemma EntriesAre(sb: Sb, v: Disk, ins: seq<Inode>, m: Map, owner: seq<Owner>, i: nat)
    requires Ok(sb, v, ins, m, owner) && i < |ins|
    ensures
      var addr := m.refs[i][NDIRECT];
      && addr == ins[i].addrs[NDIRECT] && (addr != 0 ==> sb.first <= addr < |v|)
      && forall k :: NDIRECT < k < SLOTS ==> m.refs[i][k] == if addr == 0 then 0 else Word(v[addr], k - NDIRECT - 1)
  {
    assert RefOk(v, ins, m, i, NDIRECT);
    if m.refs[i][NDIRECT] != 0 { IndirectOwn(sb, v, ins, m, owner, i); }
    forall k | NDIRECT < k < SLOTS ensures m.refs[i][k] == Ref(v, ins[i], k) { assert RefOk(v, ins, m, i, k); }
  }

  /** An inode without blocks. */
  lemma EmptyInode(sb: Sb, v: Disk, ins: seq<Inode>, m: Map, owner: seq<Owner>, i: nat)
    requires OkBut(sb, v, ins, m, owner, i) && i < |ins|
    requires (forall k :: 0 <= k <= NDIRECT ==> ins[i].addrs[k] == 0)
      && (forall k :: 0 <= k < SLOTS ==> m.refs[i][k] == 0)
    ensures Ok(sb, v, ins, m, owner)
  {
    forall j, k | 0 <= j < |m.refs| && 0 <= k < |m.refs[j]| ensures RefOk(v, ins, m, j, k) { }
  }

  // ---- what the log knows ----

  /** Every block that changed between v0 and v has been passed to log_write. */
  ghost predicate Captured(v0: Disk, v: Disk, was: set<nat>, logged: set<nat>) {
    |v| == |v0| && was <= logged && forall c :: 0 <= c < |v| && v[c] != v0[c] ==> c in logged
  }

  lemma CapturedThen(v0: Disk, v1: Disk, v2: Disk, was: set<nat>, logged1: set<nat>, logged2: set<nat>)
    requires Captured(v0, v1, was, logged1) && Captured(v1, v2, logged1, logged2)
    ensures Captured(v0, v2, was, logged2)
  {
  }

  /**
   A copy that failed inside a block leaves a changed buffer that was not passed to
   log_write. The block is stray: if its buffer is recycled it reads as in v0 again,
   and the file then holds the first |w| bytes only.
   */
  ghost predicate Stray(first: nat, v0: Disk, m0: Map, v: Disk, m: Map, was: set<nat>, logged: set<nat>, inum: nat,
                        off: nat, w: seq<Byte>, c: nat)
  {
    && first <= c < |v| == |v0| && c !in logged && inum < |m.refs| == |m0.refs|
    && Captured(v0, v[c := v0[c]], was, logged)
    && Wrote(v0, m0.refs[inum], v[c := v0[c]], m.refs[inum], off, w) && OthersSame(v0, m0, v[c := v0[c]], m, inum)
  }

  /** The change since v0 is all in the log, or all but that of block stray. */
  ghost predicate Safe(first: nat, v0: Disk, m0: Map, v: Disk, m: Map, was: set<nat>, logged: set<nat>, inum: nat,
                       off: nat, w: seq<Byte>, stray: int)
  {
    if stray < 0 then Captured(v0, v, was, logged) else Stray(first, v0, m0, v, m, was, logged, inum, off, w, stray)
  }

  /**
   Exactly when writei, stopping after tot of n bytes, leaves a stray block: some bytes
   of the next chunk were copied, and its block was there before and not in the log.
   */
  ghost predicate Strays(m0: Map, was: set<nat>, inum: nat, off: nat, tot: nat, n: nat, readable: nat, stray: int) {
    && inum < |m0.refs| && |m0.refs[inum]| == SLOTS
    && (stray >= 0 <==>
          && tot < n && tot < readable && SlotOf((off + tot) / BSIZE) < SLOTS
          && m0.refs[inum][SlotOf((off + tot) / BSIZE)] != 0 && m0.refs[inum][SlotOf((off + tot) / BSIZE)] !in was)
  }

  /** A write that was all in the log, and then a chunk that may not be. */
  lemma SafeThen(first: nat, v0: Disk, m0: Map, v1: Disk, m1: Map, v: Disk, m: Map, was: set<nat>, logged1: set<nat>,
                 logged: set<nat>,
                 inum: nat, off: nat, w: seq<Byte>, stray: int)
    requires Captured(v0, v1, was, logged1) && Safe(first, v1, m1, v, m, logged1, logged, inum, off + |w|, [], stray)
    requires inum < |m0.refs| == |m1.refs|
    requires Wrote(v0, m0.refs[inum], v1, m1.refs[inum], off, w) && OthersSame(v0, m0, v1, m1, inum)
    ensures Safe(first, v0, m0, v, m, was, logged, inum, off, w, stray)
  {
    if stray < 0 {
      CapturedThen(v0, v1, v, was, logged1, logged);
    } else {
      assert v1[stray] == v0[stray];
      var u := v[stray := v0[stray]];
      CapturedThen(v0, v1, u, was, logged1, logged);
      WroteThen(v0, m0.refs[inum], v1, m1.refs[inum], u, m.refs[inum], off, w, []);
      OthersThen(v0, m0, v1, m1, u, m, inum);
      assert w + [] == w;
    }
  }

  /** Writing and logging a block of the inode area changes nothing about a stray block. */
  lemma SafeMeta(sb: Sb, owner: seq<Owner>, v0: Disk, m0: Map, v: Disk, v': Disk, m: Map, was: set<nat>,
                 logged: set<nat>,
                 inum: nat, off: nat, w: seq<Byte>, stray: int, b: nat)
    requires Safe(sb.first, v0, m0, v, m, was, logged, inum, off, w, stray) && Owns(m, owner, sb.first)
      && b < sb.first && inum < |m.refs|
    requires |v'| == |v| && forall c :: 0 <= c < |v| && c != b ==> v'[c] == v[c]
    ensures Safe(sb.first, v0, m0, v', m, was, logged + {b}, inum, off, w, stray)
  {
    if stray >= 0 {
      var u, u' := v[stray := v0[stray]], v'[stray := v0[stray]];
      DataSame(sb, u, u', m, owner);
      WroteNothing(u, m, u', m, inum, off + |w|);
      WroteThen(v0, m0.refs[inum], u, m.refs[inum], u', m.refs[inum], off, w, []);
      OthersThen(v0, m0, u, m, u', m, inum);
      assert w + [] == w;
    }
  }

  /** File bytes live in data blocks. */
  lemma DataSame(sb: Sb, v: Disk, v': Disk, m: Map, owner: seq<Owner>)
    requires Owns(m, owner, sb.first) && |v'| == |v| && forall c :: sb.first <= c < |v| ==> v'[c] == v[c]
    ensures SameFiles(v, m, v', m)
  {
    forall j | 0 <= j < |m.refs| ensures SameFile(v, m.refs[j], v', m.refs[j]) {
      forall pos | 0 <= pos < LIMIT ensures SameByte(v, m.refs[j], v', m.refs[j], pos) {
        assert SlotOk(m, owner, sb.first, j, SlotOf(pos / BSIZE));
      }
    }
  }

  /** Every block that inode i has got since m0 has been passed to log_write. */
  ghost predicate NewLogged(m0: Map, m: Map, i: nat, logged: set<nat>) {
    && i < |m0.refs| == |m.refs| && |m0.refs[i]| == |m.refs[i]| == SLOTS
    && forall l :: 0 <= l < SLOTS && m0.refs[i][l] == 0 && m.refs[i][l] != 0 ==> m.refs[i][l] in logged
  }

  lemma BitmapBelow(sb: Sb, n: nat, c: nat)
    requires sb.Ok(n) && BitmapBlock(sb, c)
    ensures c < sb.first
  {
  }

  /** A block behind the span is in the log only if it was before. */
  lemma NotInSpan(sb: Sb, n: nat, m: Map, owner: seq<Owner>, was: set<nat>, logged: set<nat>, inum: nat, lo: nat,
                  bn: nat)
    requires sb.Ok(n) && Owns(m, owner, sb.first) && inum < |m.refs| && bn < MAXFILE
      && LoggedIn(sb, was, logged, m.refs[inum], lo, bn)
    requires m.refs[inum][SlotOf(bn)] != 0 && m.refs[inum][SlotOf(bn)] in logged
    ensures m.refs[inum][SlotOf(bn)] in was
  {
    var c := m.refs[inum][SlotOf(bn)];
    assert LoggedBlock(sb, was, m.refs[inum], lo, bn, c);
    assert SlotOk(m, owner, sb.first, inum, SlotOf(bn)) && SlotOk(m, owner, sb.first, inum, NDIRECT);
    if BitmapBlock(sb, c) { BitmapBelow(sb, n, c); }
    forall b | lo <= b < bn && SlotOf(b) < |m.refs[inum]| ensures c != m.refs[inum][SlotOf(b)] {
      assert c == m.refs[inum][SlotOf(b)] ==> SlotOk(m, owner, sb.first, inum, SlotOf(b));
    }
  }

  /** The inode whose words start at word base of a block. */
  function InodeAt(bp: Data, base: nat): Inode
    requires base + IPB <= WORDS
  {
    Inode([Word(bp, base), Word(bp, base + 1)], Word(bp, base + 2),
          seq<nat>(NDIRECT + 1, k requires 0 <= k <= NDIRECT => Word(bp, base + 3 + k)))
  }

  /** The words of a saved inode are its fields. */
  lemma SavedFields(sb: Sb, v: Disk, ip: Inode, inum: nat)
    requires InodeOk(ip) && sb.IBlock(inum) < |v| && Saved(sb, v, ip, inum)
    ensures
      var bp, base := v[sb.IBlock(inum)], inum % IPB * IPB;
      && Word(bp, base) == ip.head[0] && Word(bp, base + 1) == ip.head[1] && Word(bp, base + 2) == ip.size
      && forall k :: 0 <= k <= NDIRECT ==> Word(bp, base + 3 + k) == ip.addrs[k]
  {
    assert SavedWord(sb, v, ip, inum, 0) && SavedWord(sb, v, ip, inum, 1) && SavedWord(sb, v, ip, inum, 2);
    forall k | 0 <= k <= NDIRECT ensures Word(v[sb.IBlock(inum)], inum % IPB * IPB + 3 + k) == ip.addrs[k] {
      assert SavedWord(sb, v, ip, inum, 3 + k);
    }
  }

  /** An inode is its fields. */
  lemma InodeIs(bp: Data, base: nat, ip: Inode)
    requires InodeOk(ip) && base + IPB <= WORDS
    requires Word(bp, base) == ip.head[0] && Word(bp, base + 1) == ip.head[1] && Word(bp, base + 2) == ip.size
    requires forall k :: 0 <= k <= NDIRECT ==> Word(bp, base + 3 + k) == ip.addrs[k]
    ensures InodeAt(bp, base) == ip
  {
    assert InodeAt(bp, base).head == ip.head && InodeAt(bp, base).addrs == ip.addrs;
  }

  lemma SavedReads(sb: Sb, v: Disk, ip: Inode, inum: nat)
    requires InodeOk(ip) && sb.IBlock(inum) < |v| && Saved(sb, v, ip, inum)
    ensures InodeAt(v[sb.IBlock(inum)], inum % IPB * IPB) == ip
  {
    SavedFields(sb, v, ip, inum);
    InodeIs(v[sb.IBlock(inum)], inum % IPB * IPB, ip);
  }

  lemma SlicesJoin(s: seq<Byte>, i: nat, j: nat, k: nat)
    requires i <= j <= k <= |s|
    ensures s[i..j] + s[j..k] == s[i..k]
  {
  }

  /**
   What is left of a write, since v0, m0 and was, if the stray block, if any, is read
   from disk again: exactly the first tot bytes.
   */
  ghost predicate Lasting(v0: Disk, m0: Map, was: set<nat>, v: Disk, m: Map, logged: set<nat>, inum: nat,
                          off: nat, w: seq<Byte>, size: nat, size': nat, stray: int) {
    if stray < 0 then Captured(v0, v, was, logged)
    else
      && stray < |v| == |v0| && stray !in logged && Captured(v0, v[stray := v0[stray]], was, logged)
      && inum < |m.refs| == |m0.refs| && |m.refs[inum]| == |m0.refs[inum]| == SLOTS
      && off <= size <= LIMIT && size' <= LIMIT && size' <= |Splice(Bytes(v0, m0.refs[inum], size), off, w)|
      && Bytes(v[stray := v0[stray]], m.refs[inum], size') == Splice(Bytes(v0, m0.refs[inum], size), off, w)[..size']
  }

  lemma SafeLasts(first: nat, v0: Disk, m0: Map, was: set<nat>, v: Disk, m: Map, logged: set<nat>, inum: nat,
                  off: nat, w: seq<Byte>, size: nat, stray: int)
    requires Safe(first, v0, m0, v, m, was, logged, inum, off, w, stray) && off <= size <= LIMIT && off + |w| <= LIMIT
    requires inum < |m.refs| == |m0.refs| && Mapped(m0.refs[inum], size) && Mapped(m.refs[inum], Reach(size, off, |w|))
    ensures Lasting(v0, m0, was, v, m, logged, inum, off, w, size, Reach(size, off, |w|), stray)
  {
    if stray >= 0 {
      WroteSplice(v0, m0.refs[inum], v[stray := v0[stray]], m.refs[inum], off, w, size, Reach(size, off, |w|));
    }
  }

  // ---- an empty file system ----

  lemma {:induction false} ZeroBits(k: nat)
    ensures !NatBit(0, k)
  {
    if k > 0 { ZeroBits(k - 1); }
  }

  /** The first b blocks are marked in the bitmap and nothing else is written. */
  ghost predicate Formatted(sb: Sb, v: Disk, b: nat) {
    && sb.Ok(|v|) && (forall c :: 0 <= c < |v| && !(sb.bmapstart <= c < sb.first) ==> v[c] == Zeros())
    && forall c :: 0 <= c < sb.size ==> sb.BBlock(c) < |v| && (Used(sb, v, c) <==> c < b)
  }

  lemma FormatStart(sb: Sb, v: Disk)
    requires sb.Ok(|v|) && forall c :: 0 <= c < |v| ==> v[c] == Zeros()
    ensures Formatted(sb, v, 0)
  {
    forall c | 0 <= c < sb.size ensures sb.BBlock(c) < |v| && !Used(sb, v, c) {
      BBlockIn(sb, |v|, c);
      ZeroBits(c % BPB % 8);
    }
  }

  lemma FormatStep(sb: Sb, v: Disk, b: nat)
    requires Formatted(sb, v, b) && b < sb.first
    ensures sb.BBlock(b) < |v| && Formatted(sb, Marked(sb, v, b, true), b + 1)
  {
    BBlockIn(sb, |v|, b);
    var v' := Marked(sb, v, b, true);
    forall c | 0 <= c < sb.size ensures sb.BBlock(c) < |v'| && (Used(sb, v', c) <==> c < b + 1) {
      MarkedUsed(sb, v, b, true, c);
    }
  }

  function NoBlocks(): Inode { Inode([0, 0], 0, seq<nat>(NDIRECT + 1, _ => 0)) }

  lemma FormatOk(sb: Sb, v: Disk, ins: seq<Inode>, m: Map, owner: seq<Owner>)
    requires Formatted(sb, v, sb.first) && |ins| == |m.refs| == sb.ninodes && |m.used| == |owner| == sb.size
    requires forall i :: 0 <= i < |ins| ==> ins[i] == NoBlocks() && m.refs[i] == seq(SLOTS, _ => 0)
    requires forall b :: 0 <= b < sb.size ==>
      m.used[b] == (b < sb.first) && owner[b] == if b < sb.first then Reserved else Free
    ensures Ok(sb, v, ins, m, owner) && AllMapped(ins, m)
  {
    forall b | 0 <= b < |m.used| ensures BlockOk(m, owner, sb.first, b) && BitOk(sb, v, m.used, b) { }
    forall i, k | 0 <= i < |m.refs| && 0 <= k < |m.refs[i]|
      ensures SlotOk(m, owner, sb.first, i, k) && RefOk(v, ins, m, i, k)
    {
      assert ins[i] == NoBlocks();
    }
    forall i | 0 <= i < |ins| ensures InodeOk(ins[i]) && Mapped(m.refs[i], ins[i].size) { }
  }

  lemma BlankField(w: nat)
    requires w < IPB
    ensures Field(NoBlocks(), w) == 0
  {
  }

  lemma FormatSaved(sb: Sb, v: Disk, ins: seq<Inode>)
    requires Formatted(sb, v, sb.first) && |ins| == sb.ninodes
    requires forall i :: 0 <= i < |ins| ==> ins[i] == NoBlocks()
    ensures SavedBut(sb, v, ins, -1)
  {
    forall i | 0 <= i < |ins| ensures Saved(sb, v, ins[i], i) {
      IBlockIn(sb, |v|, i);
      ZerosBlank();
      forall w | 0 <= w < IPB ensures SavedWord(sb, v, ins[i], i, w) {
        BlankField(w);
        SavedBlank(sb, v, ins[i], i, w);
      }
    }
  }

  lemma SavedBlank(sb: Sb, v: Disk, ip: Inode, i: nat, w: nat)
    requires sb.IBlock(i) < |v| && Blank(v[sb.IBlock(i)])
    requires |ip.head| == 2 && |ip.addrs| == NDIRECT + 1 && w < IPB && Field(ip, w) == 0
    ensures SavedWord(sb, v, ip, i, w)
  {
    var d, j := v[sb.IBlock(i)], i % IPB * IPB + w;
    assert Word(d, j) == 0;
  }

  /** The indirect block, and then its entry. */
  lemma EntryCost(m: Map, m1: Map, m2: Map, i: nat, j: nat, ok: bool)
    requires Bought(m, m1, i, {NDIRECT})
    requires if ok then Bought(m1, m2, i, {NDIRECT + 1 + j}) else TooFew(m1, i, {NDIRECT + 1 + j})
    ensures if ok then Bought(m, m2, i, Needs(NDIRECT + j)) else TooFew(m, i, Needs(NDIRECT + j))
  {
    assert {NDIRECT} + {NDIRECT + 1 + j} == Needs(NDIRECT + j);
    if ok {
      BoughtThen(m, m1, m2, i, {NDIRECT}, {NDIRECT + 1 + j});
    } else {
      TooFewThen(m, m1, i, {NDIRECT}, {NDIRECT + 1 + j});
    }
  }

  /** One block more of a write. */
  lemma BlockCost(m: Map, m1: Map, m2: Map, i: nat, lo: nat, bn: nat, ok: bool)
    requires Bought(m, m1, i, NeedsAll(lo, bn)) && lo <= bn
    requires if ok then Bought(m1, m2, i, Needs(bn)) else TooFew(m1, i, Needs(bn))
    ensures if ok then Bought(m, m2, i, NeedsAll(lo, bn + 1)) else TooFew(m, i, NeedsAll(lo, bn + 1))
  {
    if ok {
      BoughtThen(m, m1, m2, i, NeedsAll(lo, bn), Needs(bn));
    } else {
      TooFewThen(m, m1, i, NeedsAll(lo, bn), Needs(bn));
    }
  }

  /** A block behind the span is one that was there, and in the log only if it was. */
  lemma SlotSince(sb: Sb, n: nat, m0: Map, m: Map, owner: seq<Owner>, was: set<nat>, logged: set<nat>, inum: nat,
                  lo: nat,
                  bn: nat)
    requires sb.Ok(n) && Owns(m, owner, sb.first) && inum < |m.refs| && bn < MAXFILE
    requires LoggedIn(sb, was, logged, m.refs[inum], lo, bn) && NewLogged(m0, m, inum, logged) && was <= logged
    requires forall l :: 0 <= l < SLOTS && m0.refs[inum][l] != 0 ==> m.refs[inum][l] == m0.refs[inum][l]
    ensures
      var c0, c := m0.refs[inum][SlotOf(bn)], m.refs[inum][SlotOf(bn)];
      c0 != 0 && c0 !in was <==> c != 0 && c !in logged
  {
    var c := m.refs[inum][SlotOf(bn)];
    if c != 0 && c in logged { NotInSpan(sb, n, m, owner, was, logged, inum, lo, bn); }
  }

  class FileSystem {
    const sb: Sb
    var v: Disk
    var ins: seq<Inode>
    ghost var m: Map
    ghost var owner: seq<Owner>
    ghost var logged: set<nat>      // the arguments of log_write so far

    ghost predicate Valid()
      reads this
    {
      Ok(sb, v, ins, m, owner)
    }

    /** A disk of n blocks with no files: the boot, log, inode and bitmap blocks are in use. */
    constructor (sb: Sb, n: nat)
      requires sb.Ok(n)
      ensures this.sb == sb && Sound() && SavedBut(sb, v, ins, -1) && |ins| == sb.ninodes && logged == {}
      ensures forall i :: 0 <= i < |ins| ==> Contents(i) == []
      ensures forall b :: 0 <= b < sb.size ==> m.used[b] == (b < sb.first)
    {
      this.sb := sb;
      v := seq<Data>(n, _ => Zeros());
      ins := seq(sb.ninodes, _ => NoBlocks());
      m := Map(seq(sb.size, b => b < sb.first), seq(sb.ninodes, _ => seq<nat>(SLOTS, _ => 0)));
      owner := seq(sb.size, b => if b < sb.first then Reserved else Free);
      logged := {};
      new;
      FormatStart(sb, v);
      Format();
      FormatOk(sb, v, ins, m, owner);
      FormatSaved(sb, v, ins);
    }

    method Format()
      requires Formatted(sb, v, 0)
      modifies this`v
      ensures Formatted(sb, v, sb.first)
    {
      var b := 0;
      while b < sb.first
        invariant b <= sb.first && Formatted(sb, v, b)
      {
        FormatStep(sb, v, b);
        v := Marked(sb, v, b, true);
        b := b + 1;
      }
    }

    /** No block is free. */
    ghost predicate Full()
      reads this
    {
      |m.used| == sb.size && forall c :: 0 <= c < sb.size ==> m.used[c]
    }

    /** The inner loop of balloc over the bits of one bitmap block, the one for blocks b .. b + BPB - 1. */
    method ScanBlock(b: nat) returns (bi: nat)
      requires Valid() && b < sb.size && b % BPB == 0
      ensures bi <= BPB && b + bi <= sb.size && forall c :: b <= c < b + bi ==> m.used[c]
      ensures if bi < BPB && b + bi < sb.size then !m.used[b + bi] else b + bi >= sb.size || bi == BPB
    {
      BBlockIn(sb, |v|, b);
      var bp := v[sb.BBlock(b)];
      bi := 0;
      while bi < BPB && b + bi < sb.size && Bit(bp, bi)
        invariant bi <= BPB && b + bi <= sb.size && forall c :: b <= c < b + bi ==> m.used[c]
      {
        BitAt(sb, v, m.used, b, bi);
        bi := bi + 1;
      }
      if bi < BPB && b + bi < sb.size {
        BitAt(sb, v, m.used, b, bi);
      }
    }

    /** balloc: the first free block, marked and zeroed; None is the panic. */
    method Balloc() returns (r: Option<nat>)
      requires Valid()
      modifies this`v, this`logged
      ensures r.None? ==> v == old(v) && logged == old(logged) && forall c :: 0 <= c < sb.size ==> m.used[c]
      ensures r.Some? ==>
        && r.value < sb.size && !m.used[r.value] && (forall c :: 0 <= c < r.value ==> m.used[c])
        && sb.BBlock(r.value) < |old(v)| && v == Allocated(sb, old(v), r.value)
        && logged == old(logged) + {sb.BBlock(r.value), r.value}
      ensures Captured(old(v), v, old(logged), logged)
    {
      var b := 0;
      while b < sb.size
        invariant b % BPB == 0 && forall c :: 0 <= c < b && c < sb.size ==> m.used[c]
        invariant v == old(v) && logged == old(logged)
      {
        var bi := ScanBlock(b);
        if bi < BPB && b + bi < sb.size {
          BBlockIn(sb, |v|, b + bi);
          v := Marked(sb, v, b + bi, true);
          v := v[b + bi := Zeros()];
          logged := logged + {sb.BBlock(b + bi), b + bi};
          return Some(b + bi);
        }
        b := b + BPB;
      }
      return None;
    }

    /** An empty direct slot, or the slot of the indirect block, gets a new block. */
    method GrowDirect(inum: nat, k: nat) returns (r: Option<nat>)
      requires Valid() && inum < |ins| && k <= NDIRECT && m.refs[inum][k] == 0
      modifies this
      ensures Valid() && SameFiles(old(v), old(m), v, m) && Grows(sb, old(v), old(ins), old(m), v, ins, m, inum, k)
      ensures r.None? ==> v == old(v) && ins == old(ins) && m == old(m) && logged == old(logged) && forall c ::
        0 <= c < sb.size ==> m.used[c]
      ensures r.Some? ==>
        && r.value != 0 && old(|m.used|) > r.value && m == Assign(old(m), inum, k, r.value)
        && logged == old(logged) + {sb.BBlock(r.value), r.value}
      ensures Captured(old(v), v, old(logged), logged)
      ensures if r.Some? then Bought(old(m), m, inum, {k}) else TooFew(old(m), inum, {k})
    {
      r := Balloc();
      if r.Some? {
        var b := r.value;
        AssignDirect(sb, old(v), ins, m, owner, inum, k, b);
        DirectKeeps(sb, old(v), ins, m, owner, inum, k, b);
        BoughtAssign(m, inum, k, b);
        ins := ins[inum := WithAddr(ins[inum], k, b)];
        m, owner := Assign(m, inum, k, b), owner[b := Slot(inum, k)];
      } else {
        SameFilesSelf(v, m);
        NoneLeft(m, inum, k);
      }
    }

    /** An empty entry of the indirect block gets a new block. */
    method GrowEntry(inum: nat, addr: nat, j: nat) returns (r: Option<nat>)
      requires Valid() && inum < |ins| && j < NINDIRECT && m.refs[inum][NDIRECT + 1 + j] == 0
        && addr == m.refs[inum][NDIRECT] && addr != 0
      modifies this
      ensures Valid() && SameFiles(old(v), old(m), v, m)
        && Grows(sb, old(v), old(ins), old(m), v, ins, m, inum, NDIRECT + 1 + j)
      ensures ins == old(ins)
      ensures r.None? ==> v == old(v) && m == old(m) && logged == old(logged) && forall c :: 0 <= c < sb.size ==>
        m.used[c]
      ensures r.Some? ==>
        && r.value != 0 && old(|m.used|) > r.value && m == Assign(old(m), inum, NDIRECT + 1 + j, r.value)
        && logged == old(logged) + {sb.BBlock(r.value), r.value, addr}
      ensures Captured(old(v), v, old(logged), logged)
      ensures r.Some? ==> !old(m).used[r.value]
    {
      r := Balloc();
      if r.Some? {
        var b := r.value;
        AssignEntry(sb, old(v), ins, m, owner, inum, NDIRECT + 1 + j, b);
        EntryKeeps(sb, old(v), ins, m, owner, inum, NDIRECT + 1 + j, b);
        v := v[addr := SetWord(v[addr], j, b)];
        assert v == Entered(sb, old(v), b, addr, NDIRECT + 1 + j);
        logged := logged + {addr};
        m, owner := Assign(m, inum, NDIRECT + 1 + j, b), owner[b := Slot(inum, NDIRECT + 1 + j)];
      } else {
        SameFilesSelf(v, m);
      }
    }

    /** Blocks that bmap may pass to log_write: bitmap blocks, the indirect block and the block itself. */
    ghost predicate MapLogged(was: set<nat>, inum: nat, bn: nat)
      reads this
    {
      && inum < |m.refs| && |m.refs[inum]| == SLOTS && bn < MAXFILE
      && forall c :: c in logged ==>
        c in was || BitmapBlock(sb, c) || (c != 0 && (c == m.refs[inum][NDIRECT] || c == m.refs[inum][SlotOf(bn)]))
    }

    /** bmap: the block number of block bn, allocated if necessary; None is one of the panics. */
    method Bmap(inum: nat, bn: nat) returns (r: Option<nat>)
      requires Valid() && inum < |ins|
      modifies this
      ensures Valid() && SameFiles(old(v), old(m), v, m)
        && Grows(sb, old(v), old(ins), old(m), v, ins, m, inum, SlotOf(bn))
      ensures r.Some? ==>
        bn < MAXFILE && r.value != 0 && m.refs[inum][SlotOf(bn)] == r.value && MapLogged(old(logged), inum, bn)
      ensures r.None? ==> bn >= MAXFILE || forall c :: 0 <= c < sb.size ==> m.used[c]
      ensures Captured(old(v), v, old(logged), logged)
      ensures NewLogged(old(m), m, inum, logged)
      ensures bn < MAXFILE ==> if r.Some? then Bought(old(m), m, inum, Needs(bn)) else TooFew(old(m), inum, Needs(bn))
      ensures bn < MAXFILE && old(m).refs[inum][SlotOf(bn)] != 0 ==>
        r.Some? && v == old(v) && ins == old(ins) && m == old(m) && owner == old(owner) && logged == old(logged)
    {
      SameFilesSelf(v, m);
      if bn < NDIRECT {
        assert RefOk(v, ins, m, inum, bn);
        var addr := ins[inum].addrs[bn];
        if addr == 0 {
          r := GrowDirect(inum, bn);
          if r.Some? { BBlockIn(sb, |v|, r.value); }
          return r;
        }
        BoughtThere(m, inum, bn);
        return Some(addr);
      }
      if bn - NDIRECT < NINDIRECT {
        r := BmapIndirect(inum, bn - NDIRECT);
        return r;
      }
      return None;
    }

    /** The part of bmap behind the direct blocks. */
    method BmapIndirect(inum: nat, j: nat) returns (r: Option<nat>)
      requires Valid() && inum < |ins| && j < NINDIRECT
      modifies this
      ensures Valid() && SameFiles(old(v), old(m), v, m)
        && Grows(sb, old(v), old(ins), old(m), v, ins, m, inum, NDIRECT + 1 + j)
      ensures r.Some? ==>
        r.value != 0 && m.refs[inum][NDIRECT + 1 + j] == r.value && MapLogged(old(logged), inum, NDIRECT + j)
      ensures r.None? ==> forall c :: 0 <= c < sb.size ==> m.used[c]
      ensures Captured(old(v), v, old(logged), logged)
      ensures NewLogged(old(m), m, inum, logged)
      ensures if r.Some? then Bought(old(m), m, inum, Needs(NDIRECT + j)) else TooFew(old(m), inum, Needs(NDIRECT + j))
      ensures old(m).refs[inum][NDIRECT + 1 + j] != 0 ==>
        r.Some? && v == old(v) && ins == old(ins) && m == old(m) && owner == old(owner) && logged == old(logged)
    {
      assert RefOk(v, ins, m, inum, NDIRECT) && RefOk(v, ins, m, inum, NDIRECT + 1 + j);
      var a := GetIndirect(inum);
      if a.None? {
        TooFewMore(m, inum, {NDIRECT}, Needs(NDIRECT + j));
        return None;
      }
      ghost var v1, m1, logged1 := v, m, logged;
      r := BmapEntry(inum, a.value, j);
      EntryCost(old(m), m1, m, inum, j, r.Some?);
      SameFilesTrans(old(v), old(m), v1, m1, v, m);
      CapturedThen(old(v), v1, v, old(logged), logged1, logged);
    }

    /** The indirect block of an inode, allocated if necessary. */
    method GetIndirect(inum: nat) returns (r: Option<nat>)
      requires Valid() && inum < |ins|
      modifies this
      ensures Valid() && SameFiles(old(v), old(m), v, m)
        && Grows(sb, old(v), old(ins), old(m), v, ins, m, inum, NDIRECT)
      ensures r.None? ==> m == old(m) && forall c :: 0 <= c < sb.size ==> m.used[c]
      ensures r.Some? ==> r.value != 0 && r.value == m.refs[inum][NDIRECT]
      ensures Captured(old(v), v, old(logged), logged) && NewLogged(old(m), m, inum, logged)
      ensures if r.Some? then Bought(old(m), m, inum, {NDIRECT}) else TooFew(old(m), inum, {NDIRECT})
      ensures forall c :: c in logged ==>
        c in old(logged) || BitmapBlock(sb, c) || (c != 0 && c == m.refs[inum][NDIRECT])
      ensures old(m).refs[inum][NDIRECT] != 0 ==>
        r.Some? && v == old(v) && ins == old(ins) && m == old(m) && owner == old(owner) && logged == old(logged)
    {
      assert RefOk(v, ins, m, inum, NDIRECT);
      var addr := ins[inum].addrs[NDIRECT];
      if addr == 0 {
        r := GrowDirect(inum, NDIRECT);
        if r.Some? { BBlockIn(sb, |v|, r.value); }
      } else {
        SameFilesSelf(v, m);
        BoughtThere(m, inum, NDIRECT);
        r := Some(addr);
      }
    }

    method BmapEntry(inum: nat, addr: nat, j: nat) returns (r: Option<nat>)
      requires Valid() && inum < |ins| && j < NINDIRECT && addr == m.refs[inum][NDIRECT] && addr != 0
      modifies this
      ensures Valid() && SameFiles(old(v), old(m), v, m)
        && Grows(sb, old(v), old(ins), old(m), v, ins, m, inum, NDIRECT + 1 + j)
      ensures r.Some? ==>
        r.value != 0 && m.refs[inum][NDIRECT + 1 + j] == r.value && MapLogged(old(logged), inum, NDIRECT + j)
      ensures r.None? ==> forall c :: 0 <= c < sb.size ==> m.used[c]
      ensures Captured(old(v), v, old(logged), logged)
      ensures NewLogged(old(m), m, inum, logged)
      ensures old(m).refs[inum][NDIRECT + 1 + j] != 0 ==>
        r.Some? && v == old(v) && ins == old(ins) && m == old(m) && owner == old(owner) && logged == old(logged)
      ensures m.refs[inum][NDIRECT] == addr
      ensures if r.Some? then Bought(old(m), m, inum, {NDIRECT + 1 + j}) else TooFew(old(m), inum, {NDIRECT + 1 + j})
    {
      assert RefOk(v, ins, m, inum, NDIRECT + 1 + j);
      IndirectOwn(sb, v, ins, m, owner, inum);
      var e := Word(v[addr], j);
      if e == 0 {
        r := GrowEntry(inum, addr, j);
        if r.Some? {
          BBlockIn(sb, |v|, r.value);
          BoughtAssign(old(m), inum, NDIRECT + 1 + j, r.value);
        } else {
          NoneLeft(m, inum, NDIRECT + 1 + j);
        }
      } else {
        SameFilesSelf(v, m);
        BoughtThere(m, inum, NDIRECT + 1 + j);
        r := Some(e);
      }
    }

    ghost predicate Sound()
      reads this
    {
      Valid() && AllMapped(ins, m)
    }

    ghost function Contents(inum: nat): seq<Byte>
      requires Sound() && inum < |ins|
      reads this
    {
      assert Mapped(m.refs[inum], ins[inum].size);
      Bytes(v, m.refs[inum], ins[inum].size)
    }

    ghost predicate FileIs(inum: nat, c: seq<Byte>)
      reads this
    {
      Sound() && inum < |ins| && Contents(inum) == c
    }

    /** The file holds c. The quantifier has one instance; it keeps FileIs folded in readi's loop. */
    ghost predicate Reading(inum: nat, c: seq<Byte>)
      reads this
    {
      forall i: nat :: i == inum ==> FileIs(i, c)
    }

    /** One turn of readi's loop: bread of the block of off, which is there already. */
    method ReadChunk(inum: nat, off: nat, len: nat, ghost c: seq<Byte>) returns (out: seq<Byte>)
      requires Reading(inum, c) && len > 0 && off + len <= |c| && off % BSIZE + len <= BSIZE
      modifies this
      ensures v == old(v) && ins == old(ins) && m == old(m) && owner == old(owner) && logged == old(logged)
      ensures Reading(inum, c) && out == c[off..off + len]
    {
      assert FileIs(inum, c);
      assert Mapped(m.refs[inum], ins[inum].size) && HasBlock(m.refs[inum], off / BSIZE);
      var addr := Bmap(inum, off / BSIZE);
      assert SlotOk(m, owner, sb.first, inum, SlotOf(off / BSIZE));
      RawSlice(v, m.refs[inum], ins[inum].size, off, len, addr.value);
      out := v[addr.value][off % BSIZE..off % BSIZE + len];
    }

    /** readi's loop over the n bytes from off on; r is -1 if they do not all fit. */
    method ReadLoop(inum: nat, off: nat, n: nat, writable: nat, ghost c: seq<Byte>) returns (r: int, out: seq<Byte>)
      requires Reading(inum, c) && off + n <= |c|
      modifies this
      ensures v == old(v) && ins == old(ins) && m == old(m) && owner == old(owner) && logged == old(logged)
      ensures if n > writable then r == -1 else r == n && out == c[off..off + n]
    {
      out := [];
      var tot := 0;
      while tot < n
        invariant v == old(v) && ins == old(ins) && m == old(m) && owner == old(owner) && logged == old(logged)
        invariant Reading(inum, c) && tot <= n && tot <= writable && out == c[off..off + tot]
      {
        var o := off + tot;
        var len := ChunkLen(o, n - tot);
        ChunkFits(o, n - tot);
        var chunk := ReadChunk(inum, o, len, c);
        if tot + len > writable {
          return -1, [];
        }
        SlicesJoin(c, off, o, o + len);
        out := out + chunk;
        tot := tot + len;
      }
      r := tot;
    }

    /** readi into a destination that can take writable bytes; it changes nothing. */
    method Readi(inum: nat, off: nat, n: nat, writable: nat) returns (r: int, out: seq<Byte>)
      requires Sound() && inum < |ins| && off < WORD_LIMIT && n < WORD_LIMIT
      modifies this
      ensures v == old(v) && ins == old(ins) && m == old(m) && owner == old(owner) && logged == old(logged)
      ensures
        var size := ins[inum].size;
        if off > size || off + n >= WORD_LIMIT then r == 0 && out == []
        else
          var len := if off + n > size then size - off else n;
          if len > writable then r == -1 else r == len && out == Contents(inum)[off..off + len]
    {
      if off > ins[inum].size || (off + n) % WORD_LIMIT < off {
        return 0, [];
      }
      var n := if off + n > ins[inum].size then ins[inum].size - off else n;
      assert FileIs(inum, Contents(inum));
      r, out := ReadLoop(inum, off, n, writable, Contents(inum));
    }

    /** One turn of writei's loop: the bytes w go to off; log is false if the copy failed after w. */
    method WriteChunk(inum: nat, off: nat, w: seq<Byte>, log: bool) returns (ok: bool, ghost stray: int)
      requires Valid() && inum < |ins| && off < LIMIT && off % BSIZE + |w| <= BSIZE
      modifies this
      ensures Valid() && Extends(sb, old(v), old(ins), old(m), v, ins, m, inum)
      ensures ok ==>
        && Wrote(old(v), old(m).refs[inum], v, m.refs[inum], off, w) && OthersSame(old(v), old(m), v, m, inum)
        && HasBlock(m.refs[inum], off / BSIZE) && MapLogged(old(logged), inum, off / BSIZE)
        && Safe(sb.first, old(v), old(m), v, m, old(logged), logged, inum, off, [], stray)
        && NewLogged(old(m), m, inum, logged)
        && (stray >= 0 ==> stray == old(m).refs[inum][SlotOf(off / BSIZE)] == m.refs[inum][SlotOf(off / BSIZE)])
        && (stray >= 0 <==>
            !log && w != [] && old(m).refs[inum][SlotOf(off / BSIZE)] != 0
            && old(m).refs[inum][SlotOf(off / BSIZE)] !in old(logged))
      ensures !ok ==> forall c :: 0 <= c < sb.size ==> m.used[c]
      ensures if ok then Bought(old(m), m, inum, Needs(off / BSIZE)) else TooFew(old(m), inum, Needs(off / BSIZE))
    {
      var addr := Bmap(inum, off / BSIZE);
      stray := -1;
      if addr.None? {
        return false, stray;
      }
      ghost var v1 := v;
      var c := addr.value;
      assert SlotOk(m, owner, sb.first, inum, SlotOf(off / BSIZE));
      var d := Overwrite(v[c], off % BSIZE, w);
      WriteOk(sb, v, ins, m, owner, inum, SlotOf(off / BSIZE), c, d);
      WriteBlock(v, m, owner, sb.first, inum, c, off, w);
      WroteNothing(old(v), old(m), v, m, inum, off);
      v := v[c := d];
      WroteThen(old(v), old(m).refs[inum], v1, m.refs[inum], v, m.refs[inum], off, [], w);
      OthersThen(old(v), old(m), v1, m, v, m, inum);
      assert [] + w == w;
      if log {
        logged := logged + {c};
      }
      if w == [] { assert d == v1[c]; }
      if !log && w != [] && c !in logged {
        stray := c;
        assert v1[c] == old(v)[c] && v[c := old(v)[c]] == v1;
      }
      ok := true;
    }

    /** iupdate: the in-memory inode goes to its place on disk. */
    method Iupdate(inum: nat)
      requires Valid() && inum < |ins| && SavedBut(sb, v, ins, inum)
      modifies this`v, this`logged
      ensures Valid() && SavedBut(sb, v, ins, -1) && SameFiles(old(v), m, v, m)
      ensures logged == old(logged) + {sb.IBlock(inum)} && Captured(old(v), v, old(logged), logged)
      ensures sb.IBlock(inum) < sb.first && |v| == |old(v)| && forall c :: 0 <= c < |v| && c != sb.IBlock(inum) ==>
        v[c] == old(v)[c]
    {
      IBlockIn(sb, |v|, inum);
      var ip := ins[inum];
      var base := inum % IPB * IPB;
      var bp := v[sb.IBlock(inum)];
      assert InodeOk(ip);
      var w := 0;
      while w < IPB
        invariant w <= IPB && Stored(v[sb.IBlock(inum)], bp, ip, base, w)
      {
        bp := SetWord(bp, base + w, Field(ip, w));
        w := w + 1;
      }
      StoredSaves(sb, v, ins, inum, bp);
      MetaWrite(sb, v, ins, m, owner, sb.IBlock(inum), bp);
      v := v[sb.IBlock(inum) := bp];
      logged := logged + {sb.IBlock(inum)};
    }

    /** ilock's read of the inode, when the in-memory copy is not valid: what iupdate wrote comes back. */
    method Ilock(inum: nat) returns (ip: Inode)
      requires Valid() && inum < |ins| && Saved(sb, v, ins[inum], inum)
      ensures ip == ins[inum]
    {
      IBlockIn(sb, |v|, inum);
      assert InodeOk(ins[inum]);
      SavedReads(sb, v, ins[inum], inum);
      ip := InodeAt(v[sb.IBlock(inum)], inum % IPB * IPB);
    }

    /** writei has put w at off into the file, since the state v0, ins0, m0. */
    ghost predicate WritingTo(v0: Disk, ins0: seq<Inode>, m0: Map, was: set<nat>, inum: nat, off: nat, w: seq<Byte>,
                              mapped: nat, hi: nat)
      reads this
    {
      && Valid() && inum < |m.refs| == |m0.refs| && Extends(sb, v0, ins0, m0, v, ins, m, inum)
      && Wrote(v0, m0.refs[inum], v, m.refs[inum], off, w) && OthersSame(v0, m0, v, m, inum)
      && Mapped(m.refs[inum], mapped) && LoggedIn(sb, was, logged, m.refs[inum], off / BSIZE, hi)
      && NewLogged(m0, m, inum, logged) && was <= logged
      && off / BSIZE <= hi && Bought(m0, m, inum, NeedsAll(off / BSIZE, hi))
    }

    /** The quantifier has one instance; it keeps WritingTo folded in the methods that only pass it on. */
    ghost predicate Writing(v0: Disk, ins0: seq<Inode>, m0: Map, was: set<nat>, inum: nat, off: nat, w: seq<Byte>,
                            mapped: nat, hi: nat)
      reads this
    {
      forall h: nat :: h == hi ==> WritingTo(v0, ins0, m0, was, inum, off, w, mapped, h)
    }

    method WriteNext(inum: nat, ghost v0: Disk, ghost ins0: seq<Inode>, ghost m0: Map, ghost was: set<nat>,
                     ghost off: nat, ghost w: seq<Byte>,
                     ghost mapped: nat, ghost hi: nat, o: nat, chunk: seq<Byte>, log: bool) returns (ok: bool,
                       ghost stray: int)
      requires Writing(v0, ins0, m0, was, inum, off, w, mapped, hi) && o == off + |w| <= mapped
        && Captured(v0, v, was, logged)
      requires o < LIMIT && o % BSIZE + |chunk| <= BSIZE && o + |chunk| <= LIMIT && hi == o / BSIZE
      modifies this
      ensures ok ==> Writing(v0, ins0, m0, was, inum, off, w + chunk, if log && o + |chunk| > mapped then o + |chunk|
                             else mapped, o / BSIZE + 1)
      ensures ok ==>
        Safe(sb.first, v0, m0, v, m, was, logged, inum, off, w, stray) && inum < |m0.refs| && |m0.refs[inum]| == SLOTS
      ensures ok ==> (stray >= 0 <==>
                      !log && chunk != [] && m0.refs[inum][SlotOf(o / BSIZE)] != 0
                      && m0.refs[inum][SlotOf(o / BSIZE)] !in was)
      ensures !ok ==> Valid() && Extends(sb, v0, ins0, m0, v, ins, m, inum) && forall c :: 0 <= c < sb.size ==>
        m.used[c]
      ensures !ok ==> TooFew(m0, inum, NeedsAll(off / BSIZE, o / BSIZE + 1))
    {
      assert WritingTo(v0, ins0, m0, was, inum, off, w, mapped, hi);
      ghost var v1, ins1, m1, logged1, owner1 := v, ins, m, logged, owner;
      ok, stray := WriteChunk(inum, o, chunk, log);
      BlockCost(m0, m1, m, inum, off / BSIZE, hi, ok);
      ExtendsThen(sb, v0, ins0, m0, v1, ins1, m1, v, ins, m, inum);
      if ok {
        WroteThen(v0, m0.refs[inum], v1, m1.refs[inum], v, m.refs[inum], off, w, chunk);
        OthersThen(v0, m0, v1, m1, v, m, inum);
        MappedMore(m1.refs[inum], m.refs[inum], mapped, o, |chunk|);
        LoggedLater(sb, was, logged1, m1.refs[inum], off / BSIZE, hi, logged, m.refs[inum], o / BSIZE);
        SafeThen(sb.first, v0, m0, v1, m1, v, m, was, logged1, logged, inum, off, w, stray);
        SlotSince(sb, |v1|, m0, m1, owner1, was, logged1, inum, off / BSIZE, hi);
      }
    }

    lemma StartWriting(inum: nat, off: nat)
      requires Sound() && inum < |ins| && off <= ins[inum].size
      ensures Writing(v, ins, m, logged, inum, off, [], ins[inum].size, off / BSIZE) && Captured(v, v, logged, logged)
    {
      assert Mapped(m.refs[inum], ins[inum].size);
      SameFilesSelf(v, m);
      WroteNothing(v, m, v, m, inum, off);
      BoughtNone(m, inum);
    }

    /** writei's loop before a turn, or after the last: tot bytes are written and logged. */
    ghost predicate LoopAt(v0: Disk, ins0: seq<Inode>, m0: Map, was: set<nat>, inum: nat, off: nat, src: seq<Byte>,
                           readable: nat, size: nat, tot: nat)
      reads this
    {
      && tot <= |src| && tot <= readable && (tot == 0 || tot == |src| || (off + tot) % BSIZE == 0)
      && Writing(v0, ins0, m0, was, inum, off, src[..tot], Reach(size, off, tot), HiTo(off, |src|, tot))
      && Captured(v0, v, was, logged)
    }

    /** writei's loop has ended after tot bytes, and more that the copy of the last chunk left. */
    ghost predicate LoopDone(v0: Disk, ins0: seq<Inode>, m0: Map, was: set<nat>, inum: nat, off: nat, src: seq<Byte>,
                             readable: nat, size: nat, tot: nat, more: nat, hi: nat, stray: int)
      reads this
    {
      && tot == StopAt(off, |src|, readable) && tot + more == (if tot == |src| then tot else readable) <= |src|
      && hi == HiAt(off, |src|, readable)
      && Writing(v0, ins0, m0, was, inum, off, src[..tot + more], Reach(size, off, tot), hi)
      && Safe(sb.first, v0, m0, v, m, was, logged, inum, off, src[..tot], stray)
      && Strays(m0, was, inum, off, tot, |src|, readable, stray)
    }

    // The quantifiers have one instance; they keep LoopAt and LoopDone folded in the loop.

    ghost predicate Looping(v0: Disk, ins0: seq<Inode>, m0: Map, was: set<nat>, inum: nat, off: nat, src: seq<Byte>,
                            readable: nat, size: nat, tot: nat)
      reads this
    {
      forall t: nat :: t == tot ==> LoopAt(v0, ins0, m0, was, inum, off, src, readable, size, t)
    }

    ghost predicate Looped(v0: Disk, ins0: seq<Inode>, m0: Map, was: set<nat>, inum: nat, off: nat, src: seq<Byte>,
                           readable: nat, size: nat, tot: nat, more: nat, hi: nat, stray: int)
      reads this
    {
      forall t: nat :: t == tot ==> LoopDone(v0, ins0, m0, was, inum, off, src, readable, size, t, more, hi, stray)
    }

    /** balloc has failed in a turn of the loop. */
    ghost predicate Exhausted(v0: Disk, ins0: seq<Inode>, m0: Map, inum: nat, off: nat, n: nat, readable: nat)
      reads this
    {
      && Valid() && Full() && Extends(sb, v0, ins0, m0, v, ins, m, inum)
      && TooFew(m0, inum, NeedsAll(off / BSIZE, HiAt(off, n, readable)))
    }

    lemma LoopStart(inum: nat, off: nat, src: seq<Byte>, readable: nat)
      requires Sound() && inum < |ins| && off <= ins[inum].size
      ensures Looping(v, ins, m, logged, inum, off, src, readable, ins[inum].size, 0)
    {
      assert src[..0] == [];
      StartWriting(inum, off);
    }

    /** A turn of the loop whose whole chunk can be copied. */
    method FullTurn(inum: nat, off: nat, src: seq<Byte>, readable: nat, tot: nat, len: nat, ghost v0: Disk,
                    ghost ins0: seq<Inode>, ghost m0: Map, ghost was: set<nat>, ghost size: nat) returns (ok: bool)
      requires tot < |src| && off + |src| <= LIMIT && len == ChunkLen(off + tot, |src| - tot) && tot + len <= readable
      requires Looping(v0, ins0, m0, was, inum, off, src, readable, size, tot)
      modifies this
      ensures if ok then Looping(v0, ins0, m0, was, inum, off, src, readable, size, tot + len)
              else Exhausted(v0, ins0, m0, inum, off, |src|, readable)
    {
      assert LoopAt(v0, ins0, m0, was, inum, off, src, readable, size, tot);
      TurnBefore(off, |src|, readable, tot);
      TurnAfter(off, |src|, tot);
      ghost var stray;
      ok, stray := WriteNext(inum, v0, ins0, m0, was, off, src[..tot], Reach(size, off, tot), (off + tot) / BSIZE,
                             off + tot, src[tot..tot + len], true);
      SlicesJoin(src, 0, tot, tot + len);
      ReachMore(size, off, tot, len);
      if !ok { TurnFails(m0, inum, off / BSIZE, (off + tot) / BSIZE + 1, HiAt(off, |src|, readable)); }
    }

    /** A turn of the loop whose chunk can be copied in part only: the last. */
    method PartTurn(inum: nat, off: nat, src: seq<Byte>, readable: nat, tot: nat, ghost v0: Disk,
                    ghost ins0: seq<Inode>, ghost m0: Map, ghost was: set<nat>, ghost size: nat)
      returns (ok: bool, ghost stray: int)
      requires tot < |src| && off + |src| <= LIMIT && tot <= readable < tot + ChunkLen(off + tot, |src| - tot)
      requires Looping(v0, ins0, m0, was, inum, off, src, readable, size, tot)
      modifies this
      ensures if !ok then Exhausted(v0, ins0, m0, inum, off, |src|, readable)
              else Looped(v0, ins0, m0, was, inum, off, src, readable, size, tot, readable - tot,
                          HiAt(off, |src|, readable), stray)
    {
      assert LoopAt(v0, ins0, m0, was, inum, off, src, readable, size, tot);
      TurnBefore(off, |src|, readable, tot);
      TurnAfter(off, |src|, tot);
      ok, stray := WriteNext(inum, v0, ins0, m0, was, off, src[..tot], Reach(size, off, tot), (off + tot) / BSIZE,
                             off + tot, src[tot..readable], false);
      assert src[..tot] + src[tot..readable] == src[..readable];
      if !ok { TurnFails(m0, inum, off / BSIZE, (off + tot) / BSIZE + 1, HiAt(off, |src|, readable)); }
    }

    lemma LoopEnds(v0: Disk, ins0: seq<Inode>, m0: Map, was: set<nat>, inum: nat, off: nat, src: seq<Byte>,
                   readable: nat,
                   size: nat)
      requires Looping(v0, ins0, m0, was, inum, off, src, readable, size, |src|)
      ensures Looped(v0, ins0, m0, was, inum, off, src, readable, size, |src|, 0, HiAt(off, |src|, readable), -1)
    {
      assert LoopAt(v0, ins0, m0, was, inum, off, src, readable, size, |src|);
      assert WritingTo(v0, ins0, m0, was, inum, off, src[..|src|], Reach(size, off, |src|), HiTo(off, |src|, |src|));
    }

    /** The loop of writei, over a source of which the first readable bytes can be read. */
    method WriteLoop(inum: nat, off: nat, src: seq<Byte>, readable: nat)
      returns (ok: bool, tot: nat, ghost more: nat, ghost stray: int)
      requires Sound() && inum < |ins| && off <= ins[inum].size && off + |src| <= LIMIT
      modifies this
      ensures if !ok then Exhausted(old(v), old(ins), old(m), inum, off, |src|, readable)
              else Looped(old(v), old(ins), old(m), old(logged), inum, off, src, readable, old(ins[inum].size), tot,
                          more, HiAt(off, |src|, readable), stray)
    {
      ghost var size := ins[inum].size;
      LoopStart(inum, off, src, readable);
      ok, tot, more, stray := true, 0, 0, -1;
      while tot < |src|
        invariant ok && tot <= |src| && more == 0 && stray == -1
        invariant Looping(old(v), old(ins), old(m), old(logged), inum, off, src, readable, size, tot)
      {
        assert LoopAt(old(v), old(ins), old(m), old(logged), inum, off, src, readable, size, tot);
        TurnAfter(off, |src|, tot);
        var len := ChunkLen(off + tot, |src| - tot);
        if tot + len > readable {
          ok, stray := PartTurn(inum, off, src, readable, tot, old(v), old(ins), old(m), old(logged), size);
          more := readable - tot;
          return;
        }
        ok := FullTurn(inum, off, src, readable, tot, len, old(v), old(ins), old(m), old(logged), size);
        if !ok {
          return;
        }
        tot := tot + len;
      }
      LoopEnds(old(v), old(ins), old(m), old(logged), inum, off, src, readable, size);
    }

    lemma LoopPaid(v0: Disk, ins0: seq<Inode>, m0: Map, was: set<nat>, inum: nat, off: nat, w: seq<Byte>, mapped: nat,
                   hi: nat)
      requires Writing(v0, ins0, m0, was, inum, off, w, mapped, hi)
      ensures Bought(m0, m, inum, NeedsAll(off / BSIZE, hi)) && !TooFew(m0, inum, NeedsAll(off / BSIZE, hi))
    {
      assert WritingTo(v0, ins0, m0, was, inum, off, w, mapped, hi);
      BoughtEnough(m0, m, inum, NeedsAll(off / BSIZE, hi));
    }

    predicate Refused(inum: nat, off: nat, n: nat)
      requires inum < |ins|
      reads this
    {
      off > ins[inum].size || off + n >= WORD_LIMIT || off + n > LIMIT
    }

    /**
     writei, of bytes of which the first readable ones can be read; None is the panic of
     balloc. A copy that fails inside a block that was not in the log leaves the block stray.
     */
    method Writei(inum: nat, off: nat, src: seq<Byte>, readable: nat)
      returns (r: Option<int>, ghost hi: nat, ghost stray: int)
      requires Sound() && SavedBut(sb, v, ins, -1) && inum < |ins| && off < WORD_LIMIT && |src| < WORD_LIMIT
      modifies this
      ensures |ins| == |old(ins)|
      ensures old(Refused(inum, off, |src|)) ==>
        r == Some(-1) && v == old(v) && ins == old(ins) && m == old(m) && owner == old(owner) && logged == old(logged)
      ensures r.None? ==> Valid() && Full()
      ensures r.None? <==>
        && !old(Refused(inum, off, |src|))
        && TooFew(old(m), inum, NeedsAll(off / BSIZE, HiAt(off, |src|, readable)))
      ensures r.Some? && !old(Refused(inum, off, |src|)) ==>
        Bought(old(m), m, inum, NeedsAll(off / BSIZE, HiAt(off, |src|, readable)))
      ensures r.Some? ==> Sound() && SavedBut(sb, v, ins, -1)
      ensures r.Some? && !old(Refused(inum, off, |src|)) ==>
        && r.value == StopAt(off, |src|, readable) && Stops(off, |src|, readable, r.value)
        && Contents(inum) == AfterWrite(old(Contents(inum)), off, src, readable, r.value)
        && (forall j :: 0 <= j < |ins| && j != inum ==> Contents(j) == old(Contents(j)))
        && LoggedIn(sb, old(logged) + {sb.IBlock(inum)}, logged, m.refs[inum], off / BSIZE, hi)
          && hi * BSIZE < off + |src| + BSIZE
      ensures r.Some? && !old(Refused(inum, off, |src|)) ==>
        && r.value >= 0 && Strays(old(m), old(logged), inum, off, StopAt(off, |src|, readable), |src|, readable, stray)
        && Lasting(old(v), old(m), old(logged), v, m, logged, inum, off, src[..r.value], old(ins[inum].size),
                   ins[inum].size, stray)
    {
      hi, stray := 0, -1;
      if off > ins[inum].size || (off + |src|) % WORD_LIMIT < off {
        return Some(-1), hi, stray;
      }
      if off + |src| > LIMIT {
        return Some(-1), hi, stray;
      }
      hi := HiAt(off, |src|, readable);
      var ok, tot;
      ghost var more;
      ok, tot, more, stray := WriteLoop(inum, off, src, readable);
      if !ok {
        return None, hi, stray;
      }
      Complete(inum, off, src, readable, tot, more, stray, old(v), old(ins), old(m), old(logged));
      r := Some(tot);
    }

    /** The rest of writei after its loop. */
    method Complete(inum: nat, off: nat, src: seq<Byte>, readable: nat, tot: nat, ghost more: nat, ghost stray: int,
                    ghost v0: Disk, ghost ins0: seq<Inode>, ghost m0: Map, ghost was: set<nat>)
      requires inum < |ins0| && off <= ins0[inum].size && off + |src| <= LIMIT
      requires SavedBut(sb, v0, ins0, -1) && AllMapped(ins0, m0)
      requires Looped(v0, ins0, m0, was, inum, off, src, readable, ins0[inum].size, tot, more,
                      HiAt(off, |src|, readable), stray)
      modifies this
      ensures Sound() && SavedBut(sb, v, ins, -1) && |ins| == |ins0|
      ensures tot == StopAt(off, |src|, readable) && Stops(off, |src|, readable, tot)
      ensures !TooFew(m0, inum, NeedsAll(off / BSIZE, HiAt(off, |src|, readable)))
      ensures Bought(m0, m, inum, NeedsAll(off / BSIZE, HiAt(off, |src|, readable)))
      ensures Contents(inum) == AfterWrite(Bytes(v0, m0.refs[inum], ins0[inum].size), off, src, readable, tot)
      ensures forall j :: 0 <= j < |ins| && j != inum ==>
        ins0[j].size <= LIMIT && |m0.refs[j]| == SLOTS && Contents(j) == Bytes(v0, m0.refs[j], ins0[j].size)
      ensures LoggedIn(sb, was + {sb.IBlock(inum)}, logged, m.refs[inum], off / BSIZE, HiAt(off, |src|, readable))
      ensures HiAt(off, |src|, readable) * BSIZE < off + |src| + BSIZE
      ensures Strays(m0, was, inum, off, tot, |src|, readable, stray)
      ensures Lasting(v0, m0, was, v, m, logged, inum, off, src[..tot], ins0[inum].size, ins[inum].size, stray)
    {
      ghost var hi := HiAt(off, |src|, readable);
      assert LoopDone(v0, ins0, m0, was, inum, off, src, readable, ins0[inum].size, tot, more, hi, stray);
      HiBound(off, |src|, readable);
      StopsIs(off, |src|, readable, tot);
      LoopPaid(v0, ins0, m0, was, inum, off, src[..tot + more], Reach(ins0[inum].size, off, tot), hi);
      Finish(inum, off, tot, v0, ins0, m0, was, src[..tot + more], src[..tot], hi, stray);
      assert Mapped(m0.refs[inum], ins0[inum].size) && Mapped(m.refs[inum], ins[inum].size);
      SafeLasts(sb.first, v0, m0, was, v, m, logged, inum, off, src[..tot], ins0[inum].size, stray);
    }

    /** The end of writei: the size, and the inode to disk. */
    method Finish(inum: nat, off: nat, tot: nat, ghost v0: Disk, ghost ins0: seq<Inode>, ghost m0: Map,
                  ghost was: set<nat>,
                  ghost w: seq<Byte>, ghost w0: seq<Byte>, ghost hi: nat, ghost stray: int)
      requires inum < |ins0| == |m0.refs|
        && Writing(v0, ins0, m0, was, inum, off, w, Reach(ins0[inum].size, off, tot), hi)
      requires SavedBut(sb, v0, ins0, -1) && AllMapped(ins0, m0) && off <= ins0[inum].size && tot <= |w|
      requires Safe(sb.first, v0, m0, v, m, was, logged, inum, off, w0, stray)
      modifies this
      ensures Sound() && SavedBut(sb, v, ins, -1) && |ins| == |ins0| && m == old(m)
      ensures Safe(sb.first, v0, m0, v, m, was, logged, inum, off, w0, stray)
      ensures
        && ins[inum].size == Reach(ins0[inum].size, off, tot) <= |Splice(Bytes(v0, m0.refs[inum], ins0[inum].size),
            off, w)|
        && Contents(inum) == Splice(Bytes(v0, m0.refs[inum], ins0[inum].size), off, w)[..ins[inum].size]
      ensures forall j :: 0 <= j < |ins| && j != inum ==>
        ins[j].size == ins0[j].size <= LIMIT && |m0.refs[j]| == SLOTS
          && Contents(j) == Bytes(v0, m0.refs[j], ins0[j].size)
      ensures LoggedIn(sb, was + {sb.IBlock(inum)}, logged, m.refs[inum], off / BSIZE, hi)
    {
      assert WritingTo(v0, ins0, m0, was, inum, off, w, Reach(ins0[inum].size, off, tot), hi);
      assert Mapped(m0.refs[inum], ins0[inum].size);
      SavedStays(sb, v0, ins0, m0, v, ins, m, inum);
      ghost var v1, logged1 := v, logged;
      if off + tot > ins[inum].size {
        Resize(sb, v, ins, m, owner, inum, off + tot);
        ins := ins[inum := ins[inum].(size := off + tot)];
      }
      Iupdate(inum);
      SafeMeta(sb, owner, v0, m0, v1, v, m, was, logged1, inum, off, w0, stray, sb.IBlock(inum));
      forall j | 0 <= j < |ins| ensures Mapped(m.refs[j], ins[j].size) {
        if j != inum { assert Mapped(m0.refs[j], ins0[j].size); }
      }
      WroteSplice(v0, m0.refs[inum], v1, m.refs[inum], off, w, ins0[inum].size, ins[inum].size);
      SameBytes(v1, m.refs[inum], v, m.refs[inum], ins[inum].size);
      forall j | 0 <= j < |ins| && j != inum
        ensures ins[j].size == ins0[j].size <= LIMIT && |m0.refs[j]| == SLOTS
          && Contents(j) == Bytes(v0, m0.refs[j], ins0[j].size)
      {
        assert Mapped(m0.refs[j], ins0[j].size) && SameFile(v0, m0.refs[j], v1, m.refs[j])
          && SameFile(v1, m.refs[j], v, m.refs[j]);
        SameBytes(v0, m0.refs[j], v1, m.refs[j], ins[j].size);
        SameBytes(v1, m.refs[j], v, m.refs[j], ins[j].size);
      }
      forall c | c in logged ensures LoggedBlock(sb, was + {sb.IBlock(inum)}, m.refs[inum], off / BSIZE, hi, c) {
        assert c in old(logged) ==> LoggedBlock(sb, was, m.refs[inum], off / BSIZE, hi, c);
      }
    }

    /** bfree of the block in slot k of an inode: false would be the panic. */
    method Bfree(b: nat, ghost inum: nat, ghost k: nat) returns (ok: bool)
      requires OkBut(sb, v, ins, m, owner, inum) && inum < |ins| && k < SLOTS && b == m.refs[inum][k] && b != 0
      modifies this`v, this`m, this`owner, this`logged
      ensures ok && OkBut(sb, v, ins, m, owner, inum) && b < |old(m).used| && m == Clear(old(m), inum, k)
      ensures |v| == |old(v)| && forall c :: 0 <= c < |v| && (c >= sb.first || c < sb.bmapstart) ==> v[c] == old(v)[c]
    {
      FreeOk(sb, v, ins, m, owner, inum, k);
      if !Used(sb, v, b) {
        return false;
      }
      v := Marked(sb, v, b, false);
      logged := logged + {sb.BBlock(b)};
      m, owner := Clear(m, inum, k), owner[b := Free];
      ok := true;
    }

    /** What is left of inode inum: slots below lo are empty, slot k from lo on holds what it held in m0. */
    ghost predicate Left(m0: Map, v0: Disk, inum: nat, lo: nat)
      reads this
    {
      && inum < |ins| && OkBut(sb, v, ins, m, owner, inum) && |m0.refs| == |m.refs| && |v| == |v0|
      && (forall j :: 0 <= j < |m.refs| && j != inum ==> m.refs[j] == m0.refs[j])
      && |m0.refs[inum]| == SLOTS
        && (forall k :: 0 <= k < SLOTS ==> m.refs[inum][k] == if k < lo && k != NDIRECT then 0 else m0.refs[inum][k])
      && (forall c :: 0 <= c < |v| && (c >= sb.first || c < sb.bmapstart) ==> v[c] == v0[c])
    }

    /** The loop of itrunc over the direct blocks. */
    method TruncDirect(inum: nat) returns (ok: bool)
      requires Valid() && inum < |ins|
      modifies this
      ensures ok && Left(old(m), old(v), inum, NDIRECT) && |ins| == |old(ins)|
      ensures forall j :: 0 <= j < |ins| && j != inum ==> ins[j] == old(ins)[j]
      ensures ins[inum].head == old(ins)[inum].head && ins[inum].addrs[NDIRECT] == old(ins)[inum].addrs[NDIRECT]
      ensures forall k :: 0 <= k < NDIRECT ==> ins[inum].addrs[k] == 0
    {
      var i := 0;
      while i < NDIRECT
        invariant i <= NDIRECT && Left(old(m), old(v), inum, i) && |ins| == |old(ins)|
        invariant forall j :: 0 <= j < |ins| && j != inum ==> ins[j] == old(ins)[j]
        invariant ins[inum].head == old(ins)[inum].head
        invariant forall k :: 0 <= k <= NDIRECT ==> ins[inum].addrs[k] == if k < i then 0 else old(ins)[inum].addrs[k]
      {
        assert RefOk(old(v), old(ins), old(m), inum, i);
        if ins[inum].addrs[i] != 0 {
          ok := Bfree(ins[inum].addrs[i], inum, i);
          OtherInodes(sb, v, ins, m, owner, inum, WithAddr(ins[inum], i, 0));
          ins := ins[inum := WithAddr(ins[inum], i, 0)];
        }
        i := i + 1;
      }
      ok := true;
    }

    /** The loop of itrunc over the entries of the indirect block, which keep their values on disk. */
    method TruncEntries(inum: nat, addr: nat, ghost m0: Map, ghost v0: Disk) returns (ok: bool)
      requires Left(m0, v0, inum, NDIRECT) && sb.first <= addr < |v0|
      requires forall k :: NDIRECT < k < SLOTS ==> m0.refs[inum][k] == Word(v0[addr], k - NDIRECT - 1)
      modifies this`v, this`m, this`owner, this`logged
      ensures ok && Left(m0, v0, inum, SLOTS)
    {
      var a := v[addr];
      var j := 0;
      while j < NINDIRECT
        invariant j <= NINDIRECT && Left(m0, v0, inum, NDIRECT + 1 + j)
      {
        assert m0.refs[inum][NDIRECT + 1 + j] == Word(a, j);
        if Word(a, j) != 0 {
          ok := Bfree(Word(a, j), inum, NDIRECT + 1 + j);
        }
        j := j + 1;
      }
      ok := true;
    }

    /** All blocks of the inode are given back, and its slots are empty. */
    method TruncBlocks(inum: nat) returns (ok: bool)
      requires Valid() && inum < |ins|
      modifies this
      ensures ok && Valid() && |ins| == |old(ins)| && |m.refs| == |old(m).refs| && |v| == |old(v)|
      ensures forall j :: 0 <= j < |ins| && j != inum ==> ins[j] == old(ins)[j]
      ensures forall j :: 0 <= j < |m.refs| && j != inum ==> m.refs[j] == old(m).refs[j]
      ensures forall k :: 0 <= k < SLOTS ==> m.refs[inum][k] == 0
      ensures forall c :: 0 <= c < |v| && (c >= sb.first || c < sb.bmapstart) ==> v[c] == old(v)[c]
    {
      EntriesAre(sb, v, ins, m, owner, inum);
      ok := TruncDirect(inum);
      var addr := ins[inum].addrs[NDIRECT];
      if addr != 0 {
        ok := TruncEntries(inum, addr, old(m), old(v));
        ok := Bfree(addr, inum, NDIRECT);
        OtherInodes(sb, v, ins, m, owner, inum, WithAddr(ins[inum], NDIRECT, 0));
        ins := ins[inum := WithAddr(ins[inum], NDIRECT, 0)];
      }
      EmptyInode(sb, v, ins, m, owner, inum);
    }

    /** itrunc: the file is empty, exactly its blocks are free, and no other file changes; false would be a panic. */
    method Itrunc(inum: nat) returns (ok: bool)
      requires Sound() && SavedBut(sb, v, ins, -1) && inum < |ins|
      modifies this
      ensures ok && Sound() && SavedBut(sb, v, ins, -1) && |ins| == |old(ins)|
      ensures Contents(inum) == [] && forall j :: 0 <= j < |ins| && j != inum ==> Contents(j) == old(Contents(j))
      ensures forall b :: 0 < b < sb.size ==> (m.used[b] <==> old(m).used[b] && !exists k :: Holds(old(m), inum, k, b))
    {
      ok := TruncBlocks(inum);
      ghost var v1 := v;
      forall b | 0 < b < sb.size ensures m.used[b] <==> old(m).used[b] && !exists k :: Holds(old(m), inum, k, b) {
        FreesOwn(old(m), old(owner), m, owner, sb.first, inum, b);
      }
      OtherBytes(sb, old(v), v, old(m), m, old(owner), inum);
      TruncSaved(sb, old(v), v, old(ins), ins, inum);
      Resize(sb, v, ins, m, owner, inum, 0);
      ins := ins[inum := ins[inum].(size := 0)];
      Iupdate(inum);
      forall j | 0 <= j < |ins| ensures Mapped(m.refs[j], ins[j].size) {
        if j != inum { assert Mapped(old(m).refs[j], old(ins)[j].size); }
      }
      forall j | 0 <= j < |ins| && j != inum ensures Contents(j) == old(Contents(j)) {
        assert SameFile(old(v), old(m).refs[j], v1, m.refs[j]) && SameFile(v1, m.refs[j], v, m.refs[j]);
        SameBytes(old(v), old(m).refs[j], v1, m.refs[j], ins[j].size);
        SameBytes(v1, m.refs[j], v, m.refs[j], ins[j].size);
      }
    }
  }

  lemma OtherBytes(sb: Sb, v: Disk, v': Disk, m: Map, m': Map, owner: seq<Owner>, i: nat)
    requires Owns(m, owner, sb.first) && |m'.refs| == |m.refs| && |v| == |v'|
    requires forall j :: 0 <= j < |m.refs| && j != i ==> m'.refs[j] == m.refs[j]
    requires forall c :: 0 <= c < |v| && c >= sb.first ==> v'[c] == v[c]
    ensures OthersSame(v, m, v', m', i)
  {
    forall j | 0 <= j < |m.refs| && j != i ensures SameFile(v, m.refs[j], v', m'.refs[j]) {
      forall pos | 0 <= pos < LIMIT ensures SameByte(v, m.refs[j], v', m'.refs[j], pos) {
        assert SlotOk(m, owner, sb.first, j, SlotOf(pos / BSIZE));
      }
    }
  }

  lemma TruncSaved(sb: Sb, v: Disk, v': Disk, ins: seq<Inode>, ins': seq<Inode>, i: nat)
    requires SavedBut(sb, v, ins, -1) && |ins'| == |ins| == sb.ninodes && sb.Ok(|v|) && |v'| == |v|
    requires forall j :: 0 <= j < |ins| && j != i ==> ins'[j] == ins[j]
    requires forall c :: 0 <= c < |v| && c < sb.bmapstart ==> v'[c] == v[c]
    ensures SavedBut(sb, v', ins', i)
  {
    forall j | 0 <= j < |ins'| && j != i ensures Saved(sb, v', ins'[j], j) {
      IBlockIn(sb, |v|, j);
      assert Saved(sb, v, ins[j], j);
      forall w | 0 <= w < IPB ensures SavedWord(sb, v', ins'[j], j, w) { assert SavedWord(sb, v, ins[j], j, w); }
    }
  }

  lemma SameFilesSelf(v: Disk, m: Map)
    requires forall j :: 0 <= j < |m.refs| ==> |m.refs[j]| == SLOTS
    ensures SameFiles(v, m, v, m)
  {
    forall j | 0 <= j < |m.refs| ensures SameFile(v, m.refs[j], v, m.refs[j]) {
      forall pos | 0 <= pos < LIMIT ensures SameByte(v, m.refs[j], v, m.refs[j], pos) { }
    }
  }

  lemma Overwritten(c: seq<Byte>, b: Byte)
    requires |c| > 0 && c[0] != b
    ensures Stops(0, 2, 1, 0) && AfterWrite(c, 0, [b, b], 1, 0) != c && Splice(c, 0, [b, b][..0])[..|c|] == c
  {
    assert [b, b][..1] == [b] && AfterWrite(c, 0, [b, b], 1, 0)[0] == b;
  }

  lemma NotCaptured(v0: Disk, v: Disk, logged: set<nat>, stray: nat, slots: seq<nat>, size: nat)
    requires stray < |v| == |v0| && stray !in logged && |slots| == SLOTS && size <= LIMIT
    requires Bytes(v, slots, size) != Bytes(v[stray := v0[stray]], slots, size)
    ensures !Captured(v0, v, {}, logged)
  {
    var u := v[stray := v0[stray]];
    assert v[stray] != v0[stray] || u == v;
  }

  /** A write that stays in block 0 needs no new block if the file has it. */
  lemma FirstPaid(m: Map, i: nat)
    requires i < |m.refs| && 0 < |m.refs[i]| && m.refs[i][0] != 0
    ensures HiAt(0, 2, 1) == 1 && !TooFew(m, i, NeedsAll(0, 1))
  {
    BoughtThere(m, i, 0);
    assert NeedsAll(0, 0) == {} && NeedsAll(0, 1) == {0};
    BoughtEnough(m, m, i, {0});
  }

  /**
   A write of two bytes of which one can be read, to a file that holds another byte
   there: the file changes, the call returns 0, and the log does not know of it.
   */
  method UnloggedWrite(fs: FileSystem, inum: nat, b: Byte) returns (r: Option<int>)
    requires fs.Sound() && SavedBut(fs.sb, fs.v, fs.ins, -1) && inum < |fs.ins| && fs.logged == {}
    requires fs.ins[inum].size > 0 && fs.Contents(inum)[0] != b
    modifies fs
    ensures r == Some(0) && fs.Sound() && |fs.ins| == |old(fs.ins)| && fs.Contents(inum) != old(fs.Contents(inum))
    ensures !Captured(old(fs.v), fs.v, {}, fs.logged)
  {
    ghost var c := fs.Contents(inum);
    assert Mapped(fs.m.refs[inum], fs.ins[inum].size) && HasBlock(fs.m.refs[inum], 0);
    FirstPaid(fs.m, inum);
    ghost var hi, stray;
    r, hi, stray := fs.Writei(inum, 0, [b, b], 1);
    assert r.value == 0 && stray >= 0;
    Overwritten(c, b);
    NotCaptured(old(fs.v), fs.v, fs.logged, stray, fs.m.refs[inum], |c|);
  }
}
