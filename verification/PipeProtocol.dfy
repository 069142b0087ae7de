/**
 Every interleaving of calls of pipewrite, piperead and pipeclose on one pipe
 (kernel/pipe.c:57-130). A step is one section of one call, with the effect on the
 queue that module Pipe proves of the ring buffer.
 */
module PipeProtocol {
  import opened Block
  import opened Common
  import opened Pipe

  /** A call, what it has moved so far, and its result once it has returned. */
  datatype Call =
    | Write(src: seq<Byte>, i: nat, result: Option<int>)
    | Read(n: nat, got: seq<Byte>, lost: seq<Byte>, result: Option<int>)

  /** One byte that call c moved. */
  datatype Move = Move(c: nat, b: Byte)

  /** puts and gets record the bytes that entered and left the queue. */
  datatype State = State(q: seq<Byte>, readopen: bool, writeopen: bool, calls: seq<Call>, puts: seq<Move>,
                         gets: seq<Move>)

  datatype Event =
    | WriteStep(c: nat, readable: nat, alive: nat)
    | ReadStep(c: nat, writable: nat, killed: bool)
    | CloseStep(writing: bool)

  function Moves(c: nat, bs: seq<Byte>): (ms: seq<Move>)
    ensures |ms| == |bs|
  {
    seq(|bs|, k requires 0 <= k < |bs| => Move(c, bs[k]))
  }

  function Result(end: Outcome): Option<int> { if end.Sleeps? then None else Some(end.r) }

  predicate Enabled(s: State, e: Event) {
    match e
    case WriteStep(c, _, _) =>
      && c < |s.calls| && s.calls[c].Write? && s.calls[c].result == None
      && s.calls[c].i <= |s.calls[c].src| && |s.q| <= PIPESIZE
    case ReadStep(c, _, _) => c < |s.calls| && s.calls[c].Read? && s.calls[c].result == None
    case CloseStep(_) => true
  }

  function Next(s: State, e: Event): State
    requires Enabled(s, e)
  {
    match e
    case WriteStep(c, readable, alive) =>
      var w := s.calls[c];
      var j := WriteTo(s.q, w.src, w.i, readable, alive, s.readopen);
      var end := WriteEnds(s.q, w.src, w.i, readable, alive, s.readopen);
      s.(q := s.q + w.src[w.i..j], puts := s.puts + Moves(c, w.src[w.i..j]),
         calls := s.calls[c := Write(w.src, j, Result(end))])
    case ReadStep(c, writable, killed) =>
      var r := s.calls[c];
      var end := ReadEnds(s.q, r.n, writable, killed, s.writeopen);
      if Waits(s.q, s.writeopen) then s.(calls := s.calls[c := Read(r.n, r.got, r.lost, Result(end))])
      else
        var k, t := Given(s.q, r.n, writable), Taken(s.q, r.n, writable);
        s.(q := s.q[t..], gets := s.gets + Moves(c, s.q[..t]),
           calls := s.calls[c := Read(r.n, s.q[..k], s.q[k..t], Result(end))])
    case CloseStep(writing) =>
      if writing then s.(writeopen := false) else s.(readopen := false)
  }

  // ---- the invariant ----

  function Bytes(ms: seq<Move>): (bs: seq<Byte>)
    ensures |bs| == |ms|
  {
    seq<Byte>(|ms|, k requires 0 <= k < |ms| => ms[k].b)
  }

  /** The bytes of the moves of call c, in order. */
  function By(ms: seq<Move>, c: nat): seq<Byte> {
    if ms == [] then [] else By(ms[..|ms| - 1], c) + if ms[|ms| - 1].c == c then [ms[|ms| - 1].b] else []
  }

  /** A call that has put the bytes ins into the queue and taken the bytes outs: its progress and its result. */
  ghost predicate Accounts(x: Call, ins: seq<Byte>, outs: seq<Byte>) {
    match x
    case Write(src, i, result) =>
      && i <= |src| && ins == src[..i] && outs == []
      && (result.Some? ==> result.value == i || (result.value == -1 && i < |src|))
    case Read(n, got, lost, result) =>
      && ins == [] && outs == got + lost && |got| + |lost| <= n && |lost| <= 1
      && (result == None ==> got == [] && lost == [])
      && (result.Some? ==> result.value == |got| || (result.value == -1 && got == lost == []))
  }

  ghost predicate CallOk(s: State, c: nat)
    requires c < |s.calls|
  {
    Accounts(s.calls[c], By(s.puts, c), By(s.gets, c))
  }

  ghost predicate Inv(s: State) {
    && |s.q| <= PIPESIZE && Bytes(s.gets) + s.q == Bytes(s.puts)
    && forall c :: 0 <= c < |s.calls| ==> CallOk(s, c)
  }

  lemma {:induction false} ByMoves(ms: seq<Move>, c: nat, bs: seq<Byte>, d: nat)
    ensures By(ms + Moves(c, bs), d) == By(ms, d) + if d == c then bs else []
  {
    if bs == [] {
      assert ms + Moves(c, bs) == ms;
    } else {
      var n := |bs| - 1;
      ByMoves(ms, c, bs[..n], d);
      assert (ms + Moves(c, bs))[..|ms| + n] == ms + Moves(c, bs[..n]);
      assert bs == bs[..n] + [bs[n]];
    }
  }

  lemma BytesMoves(ms: seq<Move>, c: nat, bs: seq<Byte>)
    ensures Bytes(ms + Moves(c, bs)) == Bytes(ms) + bs
  {
  }

  /** A section of pipewrite by itself. */
  lemma WriteAccounts(w: Call, q: seq<Byte>, ins: seq<Byte>, outs: seq<Byte>, readable: nat, alive: nat, open: bool)
    requires w.Write? && Accounts(w, ins, outs) && |q| <= PIPESIZE
    ensures
      var j, end := WriteTo(q, w.src, w.i, readable, alive, open), WriteEnds(q, w.src, w.i, readable, alive, open);
      Accounts(Write(w.src, j, Result(end)), ins + w.src[w.i..j], outs)
  {
    var j := WriteTo(q, w.src, w.i, readable, alive, open);
    assert w.src[..w.i] + w.src[w.i..j] == w.src[..j];
  }

  lemma WriteCall(s: State, e: Event, c: nat)
    requires Inv(s) && Enabled(s, e) && e.WriteStep? && c < |s.calls|
    ensures CallOk(Next(s, e), c)
  {
    var w := s.calls[e.c];
    assert CallOk(s, e.c) && CallOk(s, c);
    ByMoves(s.puts, e.c, w.src[w.i..WriteTo(s.q, w.src, w.i, e.readable, e.alive, s.readopen)], c);
    WriteAccounts(w, s.q, By(s.puts, e.c), By(s.gets, e.c), e.readable, e.alive, s.readopen);
  }

  lemma WriteKeeps(s: State, e: Event)
    requires Inv(s) && Enabled(s, e) && e.WriteStep?
    ensures Inv(Next(s, e))
  {
    var w := s.calls[e.c];
    BytesMoves(s.puts, e.c, w.src[w.i..WriteTo(s.q, w.src, w.i, e.readable, e.alive, s.readopen)]);
    forall c | 0 <= c < |s.calls| ensures CallOk(Next(s, e), c) { WriteCall(s, e, c); }
  }

  /** A section of piperead by itself: its bytes are the first of the queue. */
  lemma ReadAccounts(r: Call, q: seq<Byte>, ins: seq<Byte>, outs: seq<Byte>, writable: nat, killed: bool, open: bool)
    requires r.Read? && r.result == None && Accounts(r, ins, outs)
    ensures
      var k, t, end := Given(q, r.n, writable), Taken(q, r.n, writable), ReadEnds(q, r.n, writable, killed, open);
      if Waits(q, open) then Accounts(Read(r.n, r.got, r.lost, Result(end)), ins, outs)
      else Accounts(Read(r.n, q[..k], q[k..t], Result(end)), ins, outs + q[..t])
  {
    var k, t := Given(q, r.n, writable), Taken(q, r.n, writable);
    assert q[..t] == q[..k] + q[k..t];
  }

  lemma ReadCall(s: State, e: Event, c: nat)
    requires Inv(s) && Enabled(s, e) && e.ReadStep? && c < |s.calls|
    ensures CallOk(Next(s, e), c)
  {
    var r := s.calls[e.c];
    assert CallOk(s, e.c) && CallOk(s, c);
    ByMoves(s.gets, e.c, s.q[..Taken(s.q, r.n, e.writable)], c);
    ReadAccounts(r, s.q, By(s.puts, e.c), By(s.gets, e.c), e.writable, e.killed, s.writeopen);
  }

  /** The first t bytes of the queue leave it. */
  lemma Shift(gets: seq<Move>, c: nat, q: seq<Byte>, t: nat, puts: seq<Move>)
    requires Bytes(gets) + q == Bytes(puts) && t <= |q|
    ensures Bytes(gets + Moves(c, q[..t])) + q[t..] == Bytes(puts)
  {
    BytesMoves(gets, c, q[..t]);
    assert q == q[..t] + q[t..];
  }

  lemma ReadKeeps(s: State, e: Event)
    requires Inv(s) && Enabled(s, e) && e.ReadStep?
    ensures Inv(Next(s, e))
  {
    Shift(s.gets, e.c, s.q, Taken(s.q, s.calls[e.c].n, e.writable), s.puts);
    forall c | 0 <= c < |s.calls| ensures CallOk(Next(s, e), c) { ReadCall(s, e, c); }
  }

  lemma CloseKeeps(s: State, e: Event)
    requires Inv(s) && Enabled(s, e) && e.CloseStep?
    ensures Inv(Next(s, e))
  {
    forall c | 0 <= c < |s.calls| ensures CallOk(Next(s, e), c) { assert CallOk(s, c); }
  }

  // ---- runs ----

  ghost predicate Fresh(x: Call) {
    match x
    case Write(_, i, result) => i == 0 && result == None
    case Read(_, got, lost, result) => got == lost == [] && result == None
  }

  ghost predicate Run(ss: seq<State>, es: seq<Event>) {
    && |ss| == |es| + 1 && ss[0].q == [] && ss[0].puts == ss[0].gets == []
    && (forall c :: 0 <= c < |ss[0].calls| ==> Fresh(ss[0].calls[c]))
    && forall i :: 0 <= i < |es| ==> Enabled(ss[i], es[i]) && ss[i + 1] == Next(ss[i], es[i])
  }

  /**
   In every run: at most PIPESIZE bytes are buffered; the bytes that left the pipe,
   followed by the buffered ones, are the bytes that entered it, in order; every
   writer's bytes entered in its order and as many as it returns; and every reader
   got the bytes it returns, and lost at most one more.
   */
  lemma {:induction false} Fifo(ss: seq<State>, es: seq<Event>, i: nat)
    requires Run(ss, es) && i < |ss|
    ensures Inv(ss[i])
  {
    if i == 0 {
      assert Bytes([]) + ss[0].q == Bytes([]);
    } else {
      Fifo(ss, es, i - 1);
      match es[i - 1]
      case WriteStep(_, _, _) => WriteKeeps(ss[i - 1], es[i - 1]);
      case ReadStep(_, _, _) => ReadKeeps(ss[i - 1], es[i - 1]);
      case CloseStep(_) => CloseKeeps(ss[i - 1], es[i - 1]);
    }
  }

  // ---- closed ends ----

  /** An end that is closed stays closed. */
  lemma {:induction false} StaysClosed(ss: seq<State>, es: seq<Event>, i: nat, j: nat, writing: bool)
    requires Run(ss, es) && i < j < |ss| && es[i] == CloseStep(writing)
    ensures if writing then !ss[j].writeopen else !ss[j].readopen
  {
    if i + 1 < j { StaysClosed(ss, es, i, j - 1, writing); }
    assert ss[j] == Next(ss[j - 1], es[j - 1]);
  }

  /**
   In every run, once the write end is closed, no section of piperead sleeps: it returns
   the bytes that are left, and with none left it returns 0.
   */
  lemma EndOfFile(ss: seq<State>, es: seq<Event>, i: nat, j: nat)
    requires Run(ss, es) && i < j < |es| && es[i] == CloseStep(true) && es[j].ReadStep?
    ensures
      var r := ss[j + 1].calls[es[j].c];
      && r.Read? && r.result == Some(|r.got|) && r.got + r.lost <= ss[j].q
      && (ss[j].q == [] ==> r.result == Some(0))
      && (es[j].writable >= r.n ==> r.lost == [] && |r.got| == Min(r.n, |ss[j].q|))
  {
    StaysClosed(ss, es, i, j, true);
    var s, e := ss[j], es[j];
    ReadMeans(s.q, s.calls[e.c].n, e.writable, e.killed, s.writeopen);
    assert ss[j + 1] == Next(s, e);
  }

  /** In every run, once the read end is closed, no section of pipewrite stores a byte or sleeps. */
  lemma BrokenPipe(ss: seq<State>, es: seq<Event>, i: nat, j: nat)
    requires Run(ss, es) && i < j < |es| && es[i] == CloseStep(false) && es[j].WriteStep?
    ensures
      var w := ss[j].calls[es[j].c];
      && ss[j + 1].q == ss[j].q && ss[j + 1].puts == ss[j].puts && w.Write?
      && ss[j + 1].calls[es[j].c] == Write(w.src, w.i, Some(if w.i < |w.src| then -1 else w.i))
  {
    StaysClosed(ss, es, i, j, false);
    var s, e := ss[j], es[j];
    Fifo(ss, es, j);
    assert CallOk(s, e.c);
    WriteMeans(s.q, s.calls[e.c].src, s.calls[e.c].i, e.readable, e.alive, s.readopen);
    assert ss[j + 1] == Next(s, e);
  }

  /** In every run, a reader sleeps only on an empty pipe, and a writer only on a full one. */
  lemma SleepsForCause(ss: seq<State>, es: seq<Event>, j: nat)
    requires Run(ss, es) && j < |es| && !es[j].CloseStep? && ss[j + 1].calls[es[j].c].result == None
    ensures es[j].ReadStep? ==> ss[j].q == [] && ss[j].writeopen && !es[j].killed && ss[j + 1] == ss[j]
    ensures es[j].WriteStep? ==> |ss[j + 1].q| == PIPESIZE && ss[j].readopen
  {
    var s, e := ss[j], es[j];
    Fifo(ss, es, j);
    assert CallOk(s, e.c) && ss[j + 1] == Next(s, e);
    if e.ReadStep? {
      ReadMeans(s.q, s.calls[e.c].n, e.writable, e.killed, s.writeopen);
    } else {
      WriteMeans(s.q, s.calls[e.c].src, s.calls[e.c].i, e.readable, e.alive, s.readopen);
    }
  }

  /** Exactly when a section of piperead loses a byte: there was one to take after the last that could be copied out. */
  lemma LosesByte(s: State, e: Event)
    requires Inv(s) && Enabled(s, e) && e.ReadStep?
    ensures Next(s, e).calls[e.c].lost != [] <==> e.writable < |s.q| && e.writable < s.calls[e.c].n
  {
    assert CallOk(s, e.c);
  }

  /**
   Two bytes are written, and the copy of the first one to the reader fails: the reader
   returns 0 and the byte is gone.
   */
  lemma LostByte() returns (ss: seq<State>, es: seq<Event>)
    ensures Run(ss, es) && |ss| == 3 && Bytes(ss[2].puts) == [7, 8] && ss[2].q == [8]
    ensures |ss[2].calls| == 2 && ss[2].calls[1] == Read(2, [], [7], Some(0))
  {
    var s0 := State([], true, true, [Write([7, 8], 0, None), Read(2, [], [], None)], [], []);
    es := [WriteStep(0, 2, 3), ReadStep(1, 0, false)];
    var s1 := Next(s0, es[0]);
    assert s1.q == [7, 8] && s1.calls[1] == Read(2, [], [], None);
    BytesMoves([], 0, [7, 8]);
    assert [7, 8][0..2] == [7, 8] && s1.puts == [] + Moves(0, [7, 8]);
    ss := [s0, s1, Next(s1, es[1])];
  }
}
