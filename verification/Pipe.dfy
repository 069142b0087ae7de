/**
 Pipes (kernel/pipe.c:57-130): a ring buffer whose 32-bit counters of bytes read and
 written wrap. A call of pipewrite or piperead is a sequence of sections, each from
 acquire or the end of a sleep to the next sleep or the return; sections of any
 number of callers interleave.
 */
module Pipe {
  import opened Block
  import opened Common

  const PIPESIZE := 512

  /** How a section ends. */
  datatype Outcome = Sleeps | Returns(r: int)

  // ---- one section, on the queue of buffered bytes ----

  /**
   How far pipewrite gets from byte i on. The bytes from readable on cannot be copied
   in, and p->killed is seen in turn number alive of the loop.
   */
  function WriteTo(q: seq<Byte>, src: seq<Byte>, i: nat, readable: nat, alive: nat, open: bool): (j: nat)
    requires |q| <= PIPESIZE && i <= |src|
    ensures i <= j <= |src| && |q| + j - i <= PIPESIZE
  {
    if !open then i
    else Min(Min(|src|, if readable < i then i else readable), Min(i + alive, i + PIPESIZE - |q|))
  }

  function WriteEnds(q: seq<Byte>, src: seq<Byte>, i: nat, readable: nat, alive: nat, open: bool): Outcome
    requires |q| <= PIPESIZE && i <= |src|
  {
    var j := WriteTo(q, src, i, readable, alive, open);
    if j < |src| && (!open || j == i + alive) then Returns(-1)
    else if j < |src| && |q| + j - i == PIPESIZE then Sleeps
    else Returns(j)
  }

  /** piperead waits for a first byte while a writer may come. */
  predicate Waits(q: seq<Byte>, open: bool) { q == [] && open }

  /** How many bytes piperead takes, and how many of those it hands over: the copy to byte writable fails. */
  function Taken(q: seq<Byte>, n: nat, writable: nat): (k: nat)
    ensures k <= |q|
  {
    Min(Min(n, |q|), writable + 1)
  }

  function Given(q: seq<Byte>, n: nat, writable: nat): (k: nat)
    ensures k <= Taken(q, n, writable) <= k + 1
  {
    Min(Min(n, |q|), writable)
  }

  function ReadEnds(q: seq<Byte>, n: nat, writable: nat, killed: bool, open: bool): Outcome {
    if Waits(q, open) then (if killed then Returns(-1) else Sleeps) else Returns(Given(q, n, writable))
  }

  /**
   What a section of piperead comes to, on the queue and the flags. It sleeps exactly on an
   empty pipe that can still be written to, unless the reader is killed; it hands over
   the oldest bytes, as many as were asked for, are there and can be copied out; and it
   returns 0 for no other reason than the end of the file, a failed copy, or n == 0.
   */
  lemma ReadMeans(q: seq<Byte>, n: nat, writable: nat, killed: bool, open: bool)
    ensures
      var end, k, t := ReadEnds(q, n, writable, killed, open), Given(q, n, writable), Taken(q, n, writable);
      && (end == Sleeps <==> q == [] && open && !killed) && (end == Returns(-1) <==> q == [] && open && killed)
      && (Waits(q, open) <==> end == Sleeps || end == Returns(-1))
      && (q != [] || !open ==> end == Returns(k))
      && k <= n && k <= |q| && k <= writable && (k == n || k == |q| || k == writable)
      && t == (if writable < n && writable < |q| then k + 1 else k)
      && (end == Returns(0) ==> n == 0 || writable == 0 || (q == [] && !open))
  {
  }

  /**
   What a section of pipewrite comes to: it stores bytes up to the first that cannot be
   stored, and what stands in the way of that one decides how it ends.
   */
  lemma WriteMeans(q: seq<Byte>, src: seq<Byte>, i: nat, readable: nat, alive: nat, open: bool)
    requires |q| <= PIPESIZE && i <= |src|
    ensures
      var j, end := WriteTo(q, src, i, readable, alive, open), WriteEnds(q, src, i, readable, alive, open);
      var gone, full := !open || j == i + alive, |q| + (j - i) == PIPESIZE;
      && (j > i ==> open && j <= i + alive && j <= readable)
      && (j < |src| ==> gone || full || readable <= j)
      && (end == Returns(-1) <==> j < |src| && gone)
      && (end == Sleeps <==> j < |src| && !gone && full)
      && (end == Returns(j) <==> j == |src| || (!gone && !full))
  {
  }

  // ---- the ring buffer ----

  /** The byte stored as number k is still there. */
  ghost predicate Keeps(data: seq<Byte>, stored: seq<Byte>, k: nat) {
    |data| == PIPESIZE && k < |stored| && data[k % PIPESIZE] == stored[k]
  }

  /** Counters that wrap at 2^32 tell full and empty as counters that do not, and name the same places. */
  lemma Wrapped(r: nat, w: nat)
    requires r <= w <= r + PIPESIZE
    ensures w % WORD_LIMIT == (r % WORD_LIMIT + PIPESIZE) % WORD_LIMIT <==> w == r + PIPESIZE
    ensures r % WORD_LIMIT == w % WORD_LIMIT <==> r == w
    ensures w % WORD_LIMIT % PIPESIZE == w % PIPESIZE && r % WORD_LIMIT % PIPESIZE == r % PIPESIZE
  {
    WrapAdd(r, w - r);
    WrapAdd(r, PIPESIZE);
    Places(w);
    Places(r);
  }

  lemma WrapAdd(x: nat, d: nat)
    requires d <= PIPESIZE
    ensures (x + d) % WORD_LIMIT == (x % WORD_LIMIT + d) % WORD_LIMIT
    ensures (x + d) % WORD_LIMIT ==
      if x % WORD_LIMIT + d < WORD_LIMIT then x % WORD_LIMIT + d else x % WORD_LIMIT + d - WORD_LIMIT
  {
  }

  lemma Places(w: nat)
    ensures w % WORD_LIMIT % PIPESIZE == w % PIPESIZE
  {
    var a, b := w / WORD_LIMIT, w % WORD_LIMIT;
    assert w == (8388608 * a) * PIPESIZE + b;
    Multiple(8388608 * a, b);
  }

  lemma {:induction false} Multiple(a: nat, b: nat)
    ensures (a * PIPESIZE + b) % PIPESIZE == b % PIPESIZE
  {
    if a > 0 { Multiple(a - 1, b); }
  }

  class Pipe {
    const data: array<Byte>
    var nread: nat
    var nwrite: nat
    var readopen: bool
    var writeopen: bool
    ghost var stored: seq<Byte>      // every byte stored so far
    ghost var taken: nat             // how many of them have been taken

    ghost predicate Valid()
      reads this, data
    {
      && data.Length == PIPESIZE && taken <= |stored| <= taken + PIPESIZE
      && nread == taken % WORD_LIMIT && nwrite == |stored| % WORD_LIMIT
      && forall k: nat :: taken <= k < |stored| ==> Keeps(data[..], stored, k)
    }

    /** The bytes in the pipe, oldest first. */
    ghost function Queue(): (q: seq<Byte>)
      requires Valid()
      reads this, data
      ensures |q| <= PIPESIZE
    {
      stored[taken..]
    }

    /** pipealloc's pipe */
    constructor ()
      ensures Valid() && Queue() == [] && readopen && writeopen && fresh(data)
    {
      data := new Byte[PIPESIZE];
      nread, nwrite, readopen, writeopen := 0, 0, true, true;
      stored, taken := [], 0;
    }

    method Full() returns (full: bool)
      requires Valid()
      ensures full == (|Queue()| == PIPESIZE)
    {
      Wrapped(taken, |stored|);
      full := nwrite == (nread + PIPESIZE) % WORD_LIMIT;
    }

    method Empty() returns (empty: bool)
      requires Valid()
      ensures empty == (Queue() == [])
    {
      Wrapped(taken, |stored|);
      empty := nread == nwrite;
    }

    method Store(ch: Byte)
      requires Valid() && |Queue()| < PIPESIZE
      modifies this`nwrite, this`stored, data
      ensures Valid() && stored == old(stored) + [ch] && Queue() == old(Queue()) + [ch]
    {
      Wrapped(taken, |stored|);
      ghost var before, w := data[..], |stored|;
      WrapAdd(w, 1);
      data[nwrite % PIPESIZE] := ch;
      nwrite := (nwrite + 1) % WORD_LIMIT;
      stored := stored + [ch];
      forall k: nat | taken <= k < |stored| ensures Keeps(data[..], stored, k) {
        if k < w {
          assert Keeps(before, old(stored), k);
          Apart(k, w);
        }
      }
    }

    method Take() returns (ch: Byte)
      requires Valid() && Queue() != []
      modifies this`nread, this`taken
      ensures Valid() && taken == old(taken) + 1 && old(Queue()) == [ch] + Queue()
    {
      Wrapped(taken, |stored|);
      assert Keeps(data[..], stored, taken);
      WrapAdd(taken, 1);
      ch := data[nread % PIPESIZE];
      nread := (nread + 1) % WORD_LIMIT;
      taken := taken + 1;
    }

    /** A section of pipewrite that starts before byte i. */
    method WriteSection(src: seq<Byte>, i: nat, readable: nat, alive: nat) returns (j: nat, end: Outcome)
      requires Valid() && i <= |src|
      modifies this`nwrite, this`stored, data
      ensures Valid() && j == WriteTo(old(Queue()), src, i, readable, alive, readopen)
      ensures Queue() == old(Queue()) + src[i..j]
      ensures end == WriteEnds(old(Queue()), src, i, readable, alive, readopen)
    {
      j := i;
      while j < |src|
        invariant Valid() && i <= j <= |src| && Queue() == old(Queue()) + src[i..j]
        invariant j > i ==> readopen && j <= readable && j <= i + alive
      {
        if !readopen || j == i + alive {
          return j, Returns(-1);
        }
        var full := Full();
        if full {
          return j, Sleeps;
        }
        if j >= readable {
          break;
        }
        Store(src[j]);
        assert src[i..j] + [src[j]] == src[i..j + 1];
        j := j + 1;
      }
      end := Returns(j);
    }

    /** A section of piperead; the bytes out are the ones handed over. */
    method ReadSection(n: nat, writable: nat, killed: bool) returns (out: seq<Byte>, end: Outcome)
      requires Valid()
      modifies this`nread, this`taken
      ensures Valid() && end == ReadEnds(old(Queue()), n, writable, killed, writeopen)
      ensures end == Sleeps <==> old(Queue()) == [] && writeopen && !killed
      ensures end == Returns(-1) <==> old(Queue()) == [] && writeopen && killed
      ensures old(Queue()) != [] || !writeopen ==> end == Returns(|out|)
      ensures
        var q := old(Queue());
        if Waits(q, writeopen) then out == [] && Queue() == q
        else out == q[..Given(q, n, writable)] && Queue() == q[Taken(q, n, writable)..]
    {
      ghost var q := Queue();
      out := [];
      var empty := Empty();
      if empty && writeopen {
        return out, if killed then Returns(-1) else Sleeps;
      }
      while |out| < n
        invariant Valid() && |out| <= n && |out| <= writable && |out| <= |q|
        invariant out == q[..|out|] && Queue() == q[|out|..]
        decreases n - |out|
      {
        empty := Empty();
        if empty {
          break;
        }
        var ch := Take();
        assert q[|out|..] == [ch] + q[|out| + 1..];
        if |out| == writable {
          break;
        }
        out := out + [ch];
      }
      end := Returns(|out|);
    }

    /** pipeclose; gone tells that the page of the pipe is freed. */
    method Close(writable: bool) returns (gone: bool)
      requires Valid()
      modifies this`readopen, this`writeopen
      ensures Valid() && Queue() == old(Queue()) && gone == (!readopen && !writeopen)
      ensures readopen == (old(readopen) && writable) && writeopen == (old(writeopen) && !writable)
    {
      if writable {
        writeopen := false;
      } else {
        readopen := false;
      }
      gone := !readopen && !writeopen;
    }
  }

  lemma Apart(k: nat, w: nat)
    requires k < w < k + PIPESIZE
    ensures k % PIPESIZE != w % PIPESIZE
  {
  }
}
