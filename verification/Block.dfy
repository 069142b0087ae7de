/**
 A disk block: BSIZE bytes, which the log header, the bitmap and the indirect
 blocks reinterpret as little-endian 32-bit words or as bits.
 */
module Block {

  const BSIZE := 1024
  const WORDS := 256          // BSIZE / sizeof(uint)
  const BPB := 8192           // bitmap bits per block, BSIZE * 8
  const WORD_LIMIT := 0x1_0000_0000

  type Byte = x: int | 0 <= x < 256
  type Data = s: seq<Byte> | |s| == BSIZE witness seq(BSIZE, _ => 0)

  /** A block of zero bytes. */
  function Zeros(): (d: Data)
    ensures forall i :: 0 <= i < BSIZE ==> d[i] == 0
  {
    seq(BSIZE, _ => 0)
  }

  /** The disk: one block is read or written atomically. */
  type Disk = seq<Data>

  /** The i-th 32-bit word of a block. */
  function Word(d: Data, i: nat): (w: nat)
    requires i < WORDS
    ensures w < WORD_LIMIT
  {
    Join(d[4 * i], d[4 * i + 1], d[4 * i + 2], d[4 * i + 3])
  }

  /** The word made of four bytes. */
  function Join(b0: int, b1: int, b2: int, b3: int): int {
    b0 + 256 * b1 + 65536 * b2 + 16777216 * b3
  }

  lemma JoinBytes(w: nat)
    requires w < WORD_LIMIT
    ensures Join(w % 256, w / 256 % 256, w / 65536 % 256, w / 16777216) == w
  {
    assert w == 256 * (w / 256) + w % 256;
    var x := w / 256;
    assert x == 256 * (x / 256) + x % 256 && x / 256 == w / 65536;
    var y := x / 256;
    assert y == 256 * (y / 256) + y % 256 && y / 256 == w / 16777216;
  }

  function SetWord(d: Data, i: nat, w: nat): (r: Data)
    requires i < WORDS && w < WORD_LIMIT
    ensures Word(r, i) == w
    ensures forall j: nat :: j < WORDS && j != i ==> Word(r, j) == Word(d, j)
  {
    JoinBytes(w);
    d[4 * i := w % 256][4 * i + 1 := w / 256 % 256][4 * i + 2 := w / 65536 % 256][4 * i + 3 := w / 16777216]
  }

  /** Whether bit k of x is set: x & (1 << k). */
  predicate NatBit(x: nat, k: nat) {
    if k == 0 then x % 2 == 1 else NatBit(x / 2, k - 1)
  }

  function Pow2(m: nat): (p: nat)
    ensures p >= 1
  {
    if m == 0 then 1 else 2 * Pow2(m - 1)
  }

  /** x | (1 << k) or x & ~(1 << k) on an m-bit number. */
  function PutNatBit(x: nat, k: nat, on: bool, m: nat): (r: nat)
    requires k < m && x < Pow2(m)
    ensures r < Pow2(m)
    ensures NatBit(r, k) == on
    ensures forall j: nat :: j != k ==> NatBit(r, j) == NatBit(x, j)
  {
    if k == 0 then x / 2 * 2 + (if on then 1 else 0)
    else 2 * PutNatBit(x / 2, k - 1, on, m - 1) + x % 2
  }

  /** Bit bi of a bitmap block: bit bi % 8 of byte bi / 8. */
  predicate Bit(d: Data, bi: nat)
    requires bi < BPB
  {
    NatBit(d[bi / 8], bi % 8)
  }

  function PutBit(d: Data, bi: nat, on: bool): (r: Data)
    requires bi < BPB
    ensures Bit(r, bi) == on
    ensures forall j: nat :: j < BPB && j != bi ==> Bit(r, j) == Bit(d, j)
  {
    assert Pow2(8) == 2 * 2 * 2 * 2 * Pow2(4);
    d[bi / 8 := PutNatBit(d[bi / 8], bi % 8, on, 8)]
  }
}
