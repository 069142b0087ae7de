/**
 Who sleeps on a pipe, over every interleaving of its calls (kernel/pipe.c:57-130): a section
 of pipewrite wakes the readers unless it returns -1, a section of piperead that takes
 bytes wakes the writers, pipeclose wakes the other side, and kill wakes its target.
 */
module PipeWakeups {
  import opened Block
  import opened Common
  import opened Pipe
  import opened PipeProtocol

  /** asleep: the calls that are in sleep() and have not been woken. */
  datatype World = World(s: State, asleep: set<nat>)

  datatype Act = Do(e: Event) | Kill(c: nat)

  /** The call that takes step e; |calls| for close. */
  function Caller(s: State, e: Event): nat {
    match e
    case WriteStep(c, _, _) => c
    case ReadStep(c, _, _) => c
    case CloseStep(_) => |s.calls|
  }

  predicate Can(w: World, a: Act) {
    match a
    case Do(e) => Enabled(w.s, e) && Caller(w.s, e) !in w.asleep
    case Kill(c) => c in w.asleep
  }

  function Readers(s: State): set<nat> { set c | 0 <= c < |s.calls| && s.calls[c].Read? }

  function Writers(s: State): set<nat> { set c | 0 <= c < |s.calls| && s.calls[c].Write? }

  function EndOf(s: State, e: Event): Outcome
    requires Enabled(s, e)
  {
    match e
    case WriteStep(c, readable, alive) =>
      WriteEnds(s.q, s.calls[c].src, s.calls[c].i, readable, alive, s.readopen)
    case ReadStep(c, writable, killed) => ReadEnds(s.q, s.calls[c].n, writable, killed, s.writeopen)
    case CloseStep(_) => Returns(0)
  }

  /** The calls that step e wakes up. */
  function Woken(s: State, e: Event): set<nat>
    requires Enabled(s, e)
  {
    match e
    case WriteStep(_, _, _) => if EndOf(s, e) == Returns(-1) then {} else Readers(s)
    case ReadStep(_, _, _) => if Waits(s.q, s.writeopen) then {} else Writers(s)
    case CloseStep(writing) => if writing then Readers(s) else Writers(s)
  }

  function After(w: World, a: Act): World
    requires Can(w, a)
  {
    match a
    case Do(e) =>
      World(Next(w.s, e), w.asleep - Woken(w.s, e) + if EndOf(w.s, e).Sleeps? then {Caller(w.s, e)} else {})
    case Kill(c) => w.(asleep := w.asleep - {c})
  }

  /** A sleeping call has something to wait for. */
  ghost predicate Cause(s: State, c: nat)
    requires c < |s.calls|
  {
    if s.calls[c].Read? then s.q == [] && s.writeopen else |s.q| == PIPESIZE && s.readopen
  }

  /** Sleeping calls have not returned, and a writer sleeps only on a full pipe with a reader. */
  ghost predicate Sleeper(s: State, c: nat) {
    c < |s.calls| && s.calls[c].result == None && (s.calls[c].Write? ==> Cause(s, c))
  }

  ghost predicate Ok(w: World) {
    |w.s.q| <= PIPESIZE && forall c :: c in w.asleep ==> Sleeper(w.s, c)
  }

  /** A writer that is killed between two bytes has stored some, and returns without a wakeup. */
  ghost predicate Silent(s: State, e: Event) {
    && Enabled(s, e) && e.WriteStep? && EndOf(s, e) == Returns(-1)
    && WriteTo(s.q, s.calls[e.c].src, s.calls[e.c].i, e.readable, e.alive, s.readopen) > s.calls[e.c].i
  }

  lemma WriteAfter(w: World, e: Event, c: nat)
    requires Ok(w) && Can(w, Do(e)) && e.WriteStep? && c in After(w, Do(e)).asleep
    ensures
      var s, t := w.s, Next(w.s, e);
      |t.q| <= PIPESIZE && Sleeper(t, c) && c < |s.calls| && (s.calls[c].Read? <==> t.calls[c].Read?)
      && (t.calls[c].Read? ==> EndOf(s, e) == Returns(-1) && t.writeopen == s.writeopen)
      && (t.calls[c].Read? ==> (t.q == s.q <==> !Silent(s, e)))
  {
    var s, x := w.s, w.s.calls[e.c];
    WriteMeans(s.q, x.src, x.i, e.readable, e.alive, s.readopen);
    if c != e.c { assert Sleeper(s, c); }
  }

  lemma ReadAfter(w: World, e: Event, c: nat)
    requires Ok(w) && Can(w, Do(e)) && e.ReadStep? && c in After(w, Do(e)).asleep
    ensures
      var s, t := w.s, Next(w.s, e);
      |t.q| <= PIPESIZE && Sleeper(t, c) && c < |s.calls| && (s.calls[c].Read? <==> t.calls[c].Read?)
      && (t.calls[c].Read? ==> t.writeopen == s.writeopen && |t.q| <= |s.q| && (c == e.c ==> Cause(t, c)))
  {
    var s, x := w.s, w.s.calls[e.c];
    ReadMeans(s.q, x.n, e.writable, e.killed, s.writeopen);
    if c != e.c { assert Sleeper(s, c); }
  }

  lemma CloseAfter(w: World, e: Event, c: nat)
    requires Ok(w) && Can(w, Do(e)) && e.CloseStep? && c in After(w, Do(e)).asleep
    ensures
      var s, t := w.s, Next(w.s, e);
      Sleeper(t, c) && t.calls == s.calls && t.q == s.q && (t.calls[c].Read? ==> t.writeopen == s.writeopen)
  {
    assert Sleeper(w.s, c);
  }

  lemma StaysOk(w: World, a: Act)
    requires Ok(w) && Can(w, a)
    ensures Ok(After(w, a))
  {
    var t := After(w, a);
    forall c | c in t.asleep ensures Sleeper(t.s, c) {
      if a.Kill? {
        assert Sleeper(w.s, c);
      } else {
        match a.e
        case WriteStep(_, _, _) => WriteAfter(w, a.e, c);
        case ReadStep(_, _, _) => ReadAfter(w, a.e, c);
        case CloseStep(_) => CloseAfter(w, a.e, c);
      }
    }
    if a.Do? { FitsAfter(w.s, a.e); }
  }

  lemma FitsAfter(s: State, e: Event)
    requires Enabled(s, e) && |s.q| <= PIPESIZE
    ensures |Next(s, e).q| <= PIPESIZE
  {
    if e.WriteStep? { WriteMeans(s.q, s.calls[e.c].src, s.calls[e.c].i, e.readable, e.alive, s.readopen); }
  }

  /** A reader comes to sleep without a cause only by a silent step, in its sleep. */
  lemma OneStep(w: World, a: Act, c: nat)
    requires Ok(w) && Can(w, a) && c in After(w, a).asleep && c < |After(w, a).s.calls| && After(w, a).s.calls[c].Read?
    ensures !Cause(After(w, a).s, c) ==> c in w.asleep
    ensures c in w.asleep ==> c < |w.s.calls| && w.s.calls[c].Read?
    ensures c in w.asleep && Cause(w.s, c) ==> (!Cause(After(w, a).s, c) <==> a.Do? && Silent(w.s, a.e))
  {
    if c in w.asleep { assert Sleeper(w.s, c); }
    if a.Do? {
      match a.e
      case WriteStep(_, _, _) => WriteAfter(w, a.e, c);
      case ReadStep(_, _, _) => ReadAfter(w, a.e, c);
      case CloseStep(_) => CloseAfter(w, a.e, c);
    }
  }

  // ---- whole runs ----

  ghost predicate History(ws: seq<World>, acts: seq<Act>) {
    && |ws| == |acts| + 1 && ws[0].asleep == {} && Run([ws[0].s], [])
    && forall i :: 0 <= i < |acts| ==> Can(ws[i], acts[i]) && ws[i + 1] == After(ws[i], acts[i])
  }

  /** Step k of the history is that of a writer killed between two bytes. */
  ghost predicate SilentAt(ws: seq<World>, acts: seq<Act>, k: nat)
    requires k < |acts| < |ws|
  {
    acts[k].Do? && Silent(ws[k].s, acts[k].e)
  }

  /**
   In every history, a writer sleeps only while the pipe is full and a reader may come: no
   wakeup of a writer is lost.
   */
  lemma {:induction false} WritersSleepForCause(ws: seq<World>, acts: seq<Act>, i: nat)
    requires History(ws, acts) && i < |ws|
    ensures Ok(ws[i])
  {
    if i > 0 {
      WritersSleepForCause(ws, acts, i - 1);
      StaysOk(ws[i - 1], acts[i - 1]);
    }
  }

  /**
   In every history, a reader that sleeps beside bytes, or on a pipe without a writer, has slept
   through the step of a writer that was killed between two bytes, and since.
   */
  lemma {:induction false} OversleepsAfterKill(ws: seq<World>, acts: seq<Act>, i: nat, c: nat) returns (k: nat)
    requires History(ws, acts) && i < |ws| && c in ws[i].asleep
    requires c < |ws[i].s.calls| && ws[i].s.calls[c].Read? && !Cause(ws[i].s, c)
    ensures k < i && SilentAt(ws, acts, k) && forall j :: k <= j <= i ==> c in ws[j].asleep
  {
    WritersSleepForCause(ws, acts, i - 1);
    OneStep(ws[i - 1], acts[i - 1], c);
    if Cause(ws[i - 1].s, c) {
      k := i - 1;
    } else {
      k := OversleepsAfterKill(ws, acts, i - 1, c);
    }
  }

  /** Every silent step leaves each reader that slept for a cause asleep without one. */
  lemma SilentStrands(ws: seq<World>, acts: seq<Act>, k: nat, c: nat)
    requires History(ws, acts) && k < |acts| && SilentAt(ws, acts, k)
    requires c in ws[k].asleep && c < |ws[k].s.calls| && ws[k].s.calls[c].Read?
    ensures c in ws[k + 1].asleep && c < |ws[k + 1].s.calls| && !Cause(ws[k + 1].s, c)
  {
    var s, e := ws[k].s, acts[k].e;
    WriteMeans(s.q, s.calls[e.c].src, s.calls[e.c].i, e.readable, e.alive, s.readopen);
  }

  /** A reader sleeps, a writer of two bytes is killed after the first, and the reader sleeps on beside it. */
  lemma Overslept() returns (ws: seq<World>, acts: seq<Act>)
    ensures History(ws, acts) && |ws| == 3
    ensures ws[2].s.q == [7] && ws[2].s.writeopen && |ws[2].s.calls| == 2 && ws[2].asleep == {1}
    ensures ws[2].s.calls[1] == Read(1, [], [], None) && ws[2].s.calls[0] == Write([7, 8], 1, Some(-1))
  {
    var s0 := State([], true, true, [Write([7, 8], 0, None), Read(1, [], [], None)], [], []);
    acts := [Do(ReadStep(1, 1, false)), Do(WriteStep(0, 2, 1))];
    var w0 := World(s0, {});
    var w1 := After(w0, acts[0]);
    assert w1.s == s0 && w1.asleep == {1};
    var w2 := After(w1, acts[1]);
    assert w2.s.q == [] + [7, 8][0..1] == [7];
    ws := [w0, w1, w2];
  }
}
