/**
 When the ready heap has room (kernel/proc.c:485-496, 529-537, 753-786). An entry that
 put adds stands for a process that has just become RUNNABLE, except for the second
 put after a yield. So the heap never holds more entries than there are RUNNABLE
 processes and have been yields, and without a yield every put finds a free slot.
 */
module HeapRoom {
  import opened Common
  import opened ProcState
  import opened Scheduler

  ghost function Runnables(s: State): set<nat> { set p: nat | p < |s.procs| && s.procs[p].state == RUNNABLE }

  predicate Fetching(pc: CpuPc) { pc.InHand? || pc.Test? }

  /** The CPUs with a process in hand. */
  ghost function Fetchers(s: State): set<nat> { set c: nat | c < |s.cpus| && Fetching(s.cpus[c].pc) }

  predicate PutsAgain(s: State, c: nat)
    requires c < |s.cpus|
  {
    s.cpus[c].pc.Back? && s.cpus[c].pc.p < |s.procs| && s.procs[s.cpus[c].pc.p].state == RUNNABLE
  }

  /** The CPUs that are about to put a process into the heap once more. */
  ghost function Repeaters(s: State): set<nat> { set c: nat | c < |s.cpus| && PutsAgain(s, c) }

  predicate Yielding(x: Proc) { x.y == YieldLocked || x.y == YieldPut }

  /** The processes in yield, on their way to such a second put. */
  ghost function Yielders(s: State): set<nat> { set p: nat | p < |s.procs| && Yielding(s.procs[p]) }

  /** Heap entries, processes in hand and second puts to come, against RUNNABLE processes and yields. */
  ghost predicate Counted(s: State, n: nat) {
    |s.heap| + |Fetchers(s)| + |Repeaters(s)| + |Yielders(s)| <= |Runnables(s)| + n
  }

  /** Next takes Interrupt only outside yield, so each stands for one call of yield. */
  function IsYield(e: Event): nat { if e.Thread? && e.choice.Interrupt? then 1 else 0 }

  /** The number of yields in a run. */
  function Yields(es: seq<Event>): nat {
    if es == [] then 0 else IsYield(es[0]) + Yields(es[1..])
  }

  // ---- a step of a thread ----

  /** What put makes RUNNABLE was not. */
  lemma PutNew(s: State, e: Event, q: nat)
    requires Structure(s) && Possible(s, e) && e.Thread? && q < |s.procs|
    requires Next(s, s.cpus[e.c].pc.p, e.choice).value.effect == Put(q)
    ensures s.procs[q].state != RUNNABLE
  {
    ActingFrom(s, e);
    var p := s.cpus[e.c].pc.p;
    var a := Next(s, p, e.choice).value;
    assert TargetFact(s, p, a, q) && ForkOk(s, p);
    if q == p { OwnNotRunnable(s, p, e.choice); }
  }

  /** A thread acts as RUNNABLE only in yield, to switch away. */
  lemma OwnNotRunnable(s: State, p: nat, c: Choice)
    requires Running(s, p) && Next(s, p, c).Some? && Next(s, p, c).value.effect != Switch
    ensures s.procs[p].state != RUNNABLE
  {
  }

  /** A thread's action, with what is known about it. */
  ghost predicate Doing(s: State, e: Event, p: nat, a: Act) {
    && Enabled(s, e) && e.Thread? && p == s.cpus[e.c].pc.p && Next(s, p, e.choice) == Some(a)
    && Acting(s, e.c, p, a) && Running(s, p) && s.procs[p].on == Some(e.c)
  }

  lemma RunnableAt(s: State, e: Event, p: nat, a: Act, r: nat)
    requires Doing(s, e, p, a) && r < |s.procs|
    ensures
      var s' := Step(s, e);
      |s'.procs| == |s.procs| && (s'.procs[r].state == RUNNABLE <==> a.effect == Put(r) || s.procs[r].state == RUNNABLE)
  {
    if a.effect != Switch { OwnNotRunnable(s, p, e.choice); }
    assert TargetFact(s, p, a, r);
    After(s, e.c, p, a, r);
  }

  lemma RunnableThread(s: State, e: Event, p: nat, a: Act)
    requires Doing(s, e, p, a)
    ensures Runnables(Step(s, e)) == (if a.effect.Put? then Runnables(s) + {a.effect.q} else Runnables(s))
    ensures a.effect.Put? ==> a.effect.q !in Runnables(s)
  {
    if a.effect.Put? { PutNew(s, e, a.effect.q); }
    RunnableAt(s, e, p, a, p);
    forall r: nat | r < |s.procs|
      ensures r in Runnables(Step(s, e)) <==> a.effect == Put(r) || r in Runnables(s)
    {
      RunnableAt(s, e, p, a, r);
    }
  }

  lemma FetchThread(s: State, e: Event, p: nat, a: Act)
    requires Doing(s, e, p, a)
    ensures Fetchers(Step(s, e)) == Fetchers(s)
  {
    ThreadCpu(s, e.c, p, a, e.c);
    forall d: nat | d < |s.cpus| ensures d in Fetchers(Step(s, e)) <==> d in Fetchers(s) { ThreadCpu(s, e.c, p, a, d); }
  }

  lemma YieldThread(s: State, e: Event, p: nat, a: Act)
    requires Doing(s, e, p, a)
    ensures
      var s' := Step(s, e);
      if a.y == YieldLocked || a.y == YieldPut then Yielders(s') == Yielders(s) + {p}
        else Yielders(s') == Yielders(s) - {p}
  {
    var s' := Step(s, e);
    After(s, e.c, p, a, p);
    forall r: nat | r < |s.procs| && r != p ensures |s'.procs| == |s.procs| && s'.procs[r].y == s.procs[r].y {
      After(s, e.c, p, a, r);
      assert ProcInv(s, r) && ForkOk(s, p);
      if a.effect == Free(r) || a.effect == Allocate(r) { TargetIdles(s, e.c, p, a, r); assert TargetFact(s, p, a, r); }
    }
  }

  /** A CPU that has a process back holds its lock, so no other CPU makes it RUNNABLE. */
  lemma BackAt(s: State, e: Event, p: nat, a: Act, d: nat)
    requires Doing(s, e, p, a) && d < |s.cpus| && d != e.c
    ensures
      var s' := Step(s, e);
      |s'.cpus| == |s.cpus| && (PutsAgain(s', d) <==> PutsAgain(s, d))
  {
    ThreadCpu(s, e.c, p, a, d);
    assert CpuOk(s, d);
    if s.cpus[d].pc.Back? {
      var q := s.cpus[d].pc.p;
      RunnableAt(s, e, p, a, q);
      assert TargetFact(s, p, a, q) && LockOk(s, d, q) && LockOk(s, e.c, q) && ProcInv(s, p);
    }
  }

  lemma BackThread(s: State, e: Event, p: nat, a: Act)
    requires Doing(s, e, p, a)
    ensures Repeaters(Step(s, e)) ==
      (if a.effect == Switch && s.procs[p].y == YieldPut then Repeaters(s) + {e.c} else Repeaters(s))
    ensures e.c !in Repeaters(s)
  {
    var s' := Step(s, e);
    ThreadCpu(s, e.c, p, a, e.c);
    RunnableAt(s, e, p, a, p);
    assert ProcInv(s, p);
    forall d: nat | d < |s.cpus| && d != e.c ensures d in Repeaters(s') <==> d in Repeaters(s) {
      BackAt(s, e, p, a, d);
    }
  }

  /** How the parts of the count change together. */
  lemma ActCounts(s: State, p: nat, c: Choice)
    requires Running(s, p) && Next(s, p, c).Some?
    ensures
      var x, a := s.procs[p], Next(s, p, c).value;
      var starts := x.y == NoYield && c.Interrupt?;
      && (a.y == YieldLocked <==> starts)
      && (a.y == YieldPut <==> x.y == YieldLocked)
      && (x.y == YieldPut ==> a.effect == Switch)
  {
  }

  lemma HeapThread(s: State, e: Event, p: nat, a: Act)
    requires Doing(s, e, p, a)
    ensures |Step(s, e).heap| == |s.heap| + (if a.effect.Put? then 1 else 0)
  {
  }

  /** The arithmetic of one action: x and y are the places in yield before and after, put is its put. */
  lemma Balance(h: nat, f: set<nat>, b: set<nat>, z: set<nat>, r: set<nat>, b': set<nat>, z': set<nat>, r': set<nat>,
                x: Yield, y: Yield, c: nat, p: nat, put: Option<nat>, n: nat, more: nat)
    requires h + |f| + |b| + |z| <= |r| + n && c !in b && (p in z <==> x == YieldLocked || x == YieldPut)
    requires b' == if x == YieldPut then b + {c} else b
    requires z' == if y == YieldLocked || y == YieldPut then z + {p} else z - {p}
    requires r' == if put.Some? then r + {put.value} else r
    requires put.Some? ==> put.value !in r
    requires (y == YieldLocked ==> x == NoYield && more == 1) && (y == YieldPut <==> x == YieldLocked)
    ensures h + (if put.Some? then 1 else 0) + |f| + |b'| + |z'| <= |r'| + n + more
  {
  }

  lemma CountThread(s: State, e: Event, n: nat)
    requires Structure(s) && Enabled(s, e) && e.Thread? && Counted(s, n)
    ensures Counted(Step(s, e), n + IsYield(e))
  {
    ActingFrom(s, e);
    var p := s.cpus[e.c].pc.p;
    var a := Next(s, p, e.choice).value;
    var s' := Step(s, e);
    ActCounts(s, p, e.choice);
    RunnableThread(s, e, p, a);
    FetchThread(s, e, p, a);
    YieldThread(s, e, p, a);
    BackThread(s, e, p, a);
    HeapThread(s, e, p, a);
    Balance(|s.heap|, Fetchers(s), Repeaters(s), Yielders(s), Runnables(s), Repeaters(s'), Yielders(s'), Runnables(s'),
            s.procs[p].y, a.y, e.c, p, if a.effect.Put? then Some(a.effect.q) else None, n, IsYield(e));
  }

  // ---- a step of scheduler() or of a handler ----

  lemma SameYielders(s: State, e: Event)
    requires Structure(s) && Enabled(s, e) && !e.Thread?
    ensures Yielders(Step(s, e)) == Yielders(s)
  {
    AfterNudge(s, e, 0);
    forall r: nat | r < |s.procs| ensures r in Yielders(Step(s, e)) <==> r in Yielders(s) { AfterNudge(s, e, r); }
  }

  /** The process that scheduler() starts, or that a handler wakes. */
  function Nudgee(s: State, e: Event): Option<nat>
    requires Enabled(s, e)
  {
    if e.Decide? && s.procs[s.cpus[e.c].pc.p].state == RUNNABLE then Some(s.cpus[e.c].pc.p)
    else if e.IrqStep? && IrqWakes(s, s.cpus[e.c].irq) then Some(s.cpus[e.c].irq.j)
    else None
  }

  lemma NudgeRunnableAt(s: State, e: Event, r: nat)
    requires Structure(s) && Enabled(s, e) && !e.Thread? && r < |s.procs|
    ensures |Step(s, e).procs| == |s.procs|
    ensures r in Runnables(Step(s, e)) <==> if Nudgee(s, e) == Some(r) then !e.Decide? else r in Runnables(s)
    ensures Nudgee(s, e) == Some(r) ==> (r in Runnables(s) <==> e.Decide?)
  {
    assert CpuOk(s, e.c);
    AfterNudge(s, e, r);
  }

  lemma NudgeeIn(s: State, e: Event)
    requires Structure(s) && Enabled(s, e)
    ensures Nudgee(s, e).Some? ==> Nudgee(s, e).value < |s.procs|
  {
    assert CpuOk(s, e.c);
  }

  lemma NudgeRunnables(s: State, e: Event)
    requires Structure(s) && Enabled(s, e) && !e.Thread?
    ensures
      var q, was := Nudgee(s, e), Runnables(s);
      && Runnables(Step(s, e)) == (if q == None then was else if e.Decide? then was - {q.value} else was + {q.value})
      && (q.Some? ==> (q.value in was <==> e.Decide?))
  {
    NudgeeIn(s, e);
    NudgeRunnableAt(s, e, 0);
    forall r: nat | r < |s.procs|
      ensures r in Runnables(Step(s, e)) <==> if Nudgee(s, e) == Some(r) then !e.Decide? else r in Runnables(s)
      ensures Nudgee(s, e) == Some(r) ==> (r in Runnables(s) <==> e.Decide?)
    {
      NudgeRunnableAt(s, e, r);
    }
  }

  lemma NudgeFetchers(s: State, e: Event)
    requires Structure(s) && Enabled(s, e) && !e.Thread?
    ensures Fetchers(Step(s, e)) == if e.Get? then Fetchers(s) + {e.c} else if e.Decide? then Fetchers(s) - {e.c}
      else Fetchers(s)
    ensures (e.Get? ==> e.c !in Fetchers(s)) && (e.Decide? ==> e.c in Fetchers(s))
  {
    forall d: nat | d < |s.cpus|
      ensures |Step(s, e).cpus| == |s.cpus| && (d != e.c ==> Step(s, e).cpus[d] == s.cpus[d])
    {
      AfterCpus(s, e, d);
    }
  }

  lemma NudgeBackAt(s: State, e: Event, d: nat)
    requires Structure(s) && Enabled(s, e) && !e.Thread? && d < |s.cpus| && d != e.c
    ensures |Step(s, e).cpus| == |s.cpus| && (PutsAgain(Step(s, e), d) <==> PutsAgain(s, d))
  {
    AfterCpus(s, e, d);
    assert CpuOk(s, d) && CpuOk(s, e.c);
    if s.cpus[d].pc.Back? {
      var q := s.cpus[d].pc.p;
      AfterNudge(s, e, q);
      assert LockOk(s, d, q) && LockOk(s, e.c, q);
    }
  }

  lemma NudgeRepeaters(s: State, e: Event)
    requires Structure(s) && Enabled(s, e) && !e.Thread?
    ensures Repeaters(Step(s, e)) == if e.PutBack? then Repeaters(s) - {e.c} else Repeaters(s)
  {
    forall d: nat | d < |s.cpus| && d != e.c ensures d in Repeaters(Step(s, e)) <==> d in Repeaters(s) {
      NudgeBackAt(s, e, d);
    }
    assert IrqOk(s, e.c);
  }

  lemma HeapNudge(s: State, e: Event)
    requires Structure(s) && Enabled(s, e) && !e.Thread?
    ensures
      |Step(s, e).heap| == |s.heap| +
        (if e.Get? then -1 else if e.PutBack? && e.c in Repeaters(s) then 1
         else if e.IrqStep? && Nudgee(s, e).Some? then 1 else 0)
  {
    assert CpuOk(s, e.c);
  }

  lemma CountNudge(s: State, e: Event, n: nat)
    requires Structure(s) && Enabled(s, e) && !e.Thread? && Counted(s, n)
    ensures Counted(Step(s, e), n)
  {
    SameYielders(s, e);
    NudgeRunnables(s, e);
    NudgeFetchers(s, e);
    NudgeRepeaters(s, e);
    HeapNudge(s, e);
  }

  // ---- whole runs ----

  lemma {:induction false} CountRun(s: State, es: seq<Event>, n: nat)
    requires Structure(s) && Counted(s, n) && Runs(s, es)
    ensures Structure(Final(s, es)) && Counted(Final(s, es), n + Yields(es))
    decreases |es|
  {
    if es != [] {
      var e := es[0];
      StepKeeps(s, e);
      if e.Thread? { CountThread(s, e, n); } else { CountNudge(s, e, n); }
      CountRun(Step(s, e), es[1..], n + IsYield(e));
    }
  }

  lemma CountInit(s: State)
    requires Init(s)
    ensures Counted(s, 0)
  {
    assert Runnables(s) == {s.init};
    assert Fetchers(s) == {} && Repeaters(s) == {} && Yielders(s) == {};
  }

  /** In every run the heap holds at most one entry for each RUNNABLE process and each yield. */
  lemma HeapBounded(s: State, es: seq<Event>)
    requires Init(s) && Runs(s, es)
    ensures |Final(s, es).heap| <= |Runnables(Final(s, es))| + Yields(es)
  {
    InitStructure(s);
    CountInit(s);
    CountRun(s, es, 0);
  }

  ghost function InUse(s: State): set<nat> { set p: nat | p < |s.procs| && s.procs[p].state != UNUSED }

  lemma {:induction false} FewerThan(a: set<nat>, n: nat)
    requires forall x :: x in a ==> x < n
    ensures |a| <= n
  {
    if n > 0 {
      FewerThan(a - {n - 1}, n - 1);
      Fewer(a, a - {n - 1} + {n - 1});
    }
  }

  /** A put makes one more process RUNNABLE, or is the second put of a yield. */
  lemma PutCounts(s: State, e: Event, n: nat)
    requires Structure(s) && Counted(s, n) && Possible(s, e) && Puts(s, e)
    ensures |s.heap| < |InUse(s)| + n
  {
    if e.Thread? {
      var q := Next(s, s.cpus[e.c].pc.p, e.choice).value.effect.q;
      PutNew(s, e, q);
      PutInUse(s, e, q);
      Fewer(Runnables(s) + {q}, InUse(s));
    } else if e.PutBack? {
      assert e.c in Repeaters(s);
      Fewer({e.c}, Repeaters(s));
      Fewer(Runnables(s), InUse(s));
    } else {
      Fewer(Runnables(s) + {s.cpus[e.c].irq.j}, InUse(s));
    }
  }

  lemma PutInUse(s: State, e: Event, q: nat)
    requires Structure(s) && Possible(s, e) && e.Thread? && Next(s, s.cpus[e.c].pc.p, e.choice).value.effect == Put(q)
    ensures q < |s.procs| && s.procs[q].state != UNUSED
  {
    ActingFrom(s, e);
    var p := s.cpus[e.c].pc.p;
    assert TargetFact(s, p, Next(s, p, e.choice).value, q) && ForkOk(s, p) && ProcInv(s, p);
  }

  /** As long as the processes in use and the yields so far are at most NPROC together, a put finds a free slot. */
  lemma RoomForPut(s: State, es: seq<Event>, e: Event)
    requires Init(s) && Runs(s, es) && Possible(Final(s, es), e)
    requires |InUse(Final(s, es))| + Yields(es) <= |Final(s, es).procs|
    ensures Enabled(Final(s, es), e)
  {
    InitStructure(s);
    CountInit(s);
    CountRun(s, es, 0);
    if Puts(Final(s, es), e) { PutCounts(Final(s, es), e, Yields(es)); }
  }

  /** Without a yield every put finds a free slot, whatever the processes do. */
  lemma RoomWithoutYield(s: State, es: seq<Event>, e: Event)
    requires Init(s) && Runs(s, es) && Possible(Final(s, es), e) && Yields(es) == 0
    ensures Enabled(Final(s, es), e)
  {
    FewerThan(InUse(Final(s, es)), |Final(s, es).procs|);
    RoomForPut(s, es, e);
  }
}
