/**
 What sleep, wakeup, kill, fork, exit and wait come to, over every run of the machine of
 module Scheduler (kernel/proc.c:287-445, 567-633).
 */
module ProcessCalls {
  import opened Common
  import opened ProcState
  import opened Processes
  import opened Scheduler

  // ---- runs with their states ----

  ghost predicate StepAt(ss: seq<State>, es: seq<Event>, i: nat)
    requires i < |es| && |ss| == |es| + 1
  {
    Enabled(ss[i], es[i]) && ss[i + 1] == Step(ss[i], es[i])
  }

  ghost predicate Trace(ss: seq<State>, es: seq<Event>) {
    |ss| == |es| + 1 && Init(ss[0]) && forall i :: 0 <= i < |es| ==> StepAt(ss, es, i)
  }

  lemma StepInv(s: State, e: Event)
    requires Inv(s) && Enabled(s, e)
    ensures Inv(Step(s, e)) && |Step(s, e).procs| == |s.procs|
  {
    if e.Thread? {
      ThreadInv(s, e);
      ActingFrom(s, e);
      After(s, e.c, s.cpus[e.c].pc.p, Next(s, s.cpus[e.c].pc.p, e.choice).value, 0);
    } else {
      SchedulerInv(s, e);
      AfterNudge(s, e, 0);
    }
  }

  lemma {:induction false} TraceInv(ss: seq<State>, es: seq<Event>, i: nat)
    requires Trace(ss, es) && i < |ss|
    ensures Inv(ss[i]) && |ss[i].procs| == |ss[0].procs|
  {
    if i == 0 {
      InitInv(ss[0]);
    } else {
      TraceInv(ss, es, i - 1);
      assert StepAt(ss, es, i - 1);
      StepInv(ss[i - 1], es[i - 1]);
    }
  }

  /** Step e is one of the thread of p. */
  predicate By(s: State, e: Event, p: nat) {
    e.Thread? && e.c < |s.cpus| && s.cpus[e.c].pc == Run(p) && p < |s.procs|
  }

  /** What the step does to process r, if the thread of p takes it. */
  lemma ByThread(s: State, e: Event, p: nat, r: nat)
    requires Inv(s) && Enabled(s, e) && By(s, e, p) && r < |s.procs|
    ensures
      var a, s' := Next(s, p, e.choice), Step(s, e);
      && a.Some? && |s'.procs| == |s.procs| && Running(s, p)
      && s'.procs[r] == (if r == p then OwnStep(s.procs[p], p, a.value)
                         else OtherStep(s.procs[r], r, a.value.effect))
      && TargetFact(s, p, a.value, r) && ParentFact(s, p, a.value, r)
  {
    ActingFrom(s, e);
    After(s, e.c, p, Next(s, p, e.choice).value, r);
    Facts(s, p, e.choice, r);
  }

  /** Others do not move a thread. */
  lemma PcStays(s: State, e: Event, p: nat)
    requires Inv(s) && Enabled(s, e) && p < |s.procs| && !By(s, e, p)
      && !s.procs[p].pc.Dead? && !s.procs[p].pc.ForkRet?
    ensures |Step(s, e).procs| == |s.procs| && Step(s, e).procs[p].pc == s.procs[p].pc
  {
    assert ProcInv(s, p);
    if e.Thread? {
      var r := s.cpus[e.c].pc.p;
      ByThread(s, e, r, p);
      assert ForkOk(s, r);
      ActingFrom(s, e);
      var a := Next(s, r, e.choice).value;
      if a.effect == Free(p) || a.effect == Allocate(p) { TargetIdles(s, e.c, r, a, p); }
    } else {
      AfterNudge(s, e, p);
    }
  }

  // ---- wait ----

  /** None of the slots before i is a child of p. */
  ghost predicate NoChild(s: State, p: nat, i: nat) {
    forall z :: 0 <= z < i && z < |s.procs| ==> s.procs[z].parent != Some(p)
  }

  /** What wait knows while it holds wait_lock. */
  ghost predicate WaitKnows(s: State, p: nat)
    requires p < |s.procs|
  {
    s.procs[p].pc.InWait? ==>
      match s.procs[p].pc.w
      case Scan(i, kids) => !kids ==> NoChild(s, p, i)
      case Look(i, kids) => i < |s.procs| && s.procs[i].parent == Some(p) && (!kids ==> NoChild(s, p, i))
      case _ => true
  }

  /** Who the parent of z is changes only by a step of the holder of wait_lock, or when z is freed. */
  lemma ParentKept(s: State, e: Event, p: nat, z: nat)
    requires Inv(s) && Enabled(s, e) && p < |s.procs| && z < |s.procs| && WaitLock(s.procs[p].pc) && !By(s, e, p)
    ensures |Step(s, e).procs| == |s.procs|
    ensures Step(s, e).procs[z].parent == s.procs[z].parent ||
      (Step(s, e).procs[z].parent == None && !HoldsLock(s.procs[p], p, z))
  {
    if e.Thread? {
      var r := s.cpus[e.c].pc.p;
      ByThread(s, e, r, z);
      assert ProcInv(s, p);
      if WaitLock(s.procs[r].pc) { WaitLockAlone(s, p, r); }
      if Next(s, r, e.choice).value.effect == Free(z) {
        assert LockOk(s, e.c, z) && LockOk(s, s.procs[p].on.value, z) && CpuOk(s, e.c) && ProcInv(s, r);
      }
    } else {
      AfterNudge(s, e, z);
    }
  }

  lemma WaitOther(s: State, e: Event, p: nat)
    requires Inv(s) && Enabled(s, e) && p < |s.procs| && !By(s, e, p) && WaitKnows(s, p)
    ensures |Step(s, e).procs| == |s.procs| && WaitKnows(Step(s, e), p)
  {
    var s', x := Step(s, e), s.procs[p];
    StepInv(s, e);
    if x.pc.InWait? && (x.pc.w.Scan? || x.pc.w.Look?) {
      PcStays(s, e, p);
      forall z | 0 <= z < |s.procs|
        ensures s'.procs[z].parent == s.procs[z].parent || (s'.procs[z].parent == None && !HoldsLock(x, p, z))
      {
        ParentKept(s, e, p, z);
      }
    } else if !x.pc.Dead? && !x.pc.ForkRet? {
      PcStays(s, e, p);
    } else {
      NotYet(s, e, p);
    }
  }

  /** A process without a thread, or that has not run yet, gets into wait by no step of others. */
  lemma NotYet(s: State, e: Event, p: nat)
    requires Inv(s) && Enabled(s, e) && p < |s.procs| && !By(s, e, p) && (s.procs[p].pc.Dead? || s.procs[p].pc.ForkRet?)
    ensures |Step(s, e).procs| == |s.procs| && !Step(s, e).procs[p].pc.InWait?
  {
    if e.Thread? { ByThread(s, e, s.cpus[e.c].pc.p, p); } else { AfterNudge(s, e, p); }
  }

  /**
   How a thread comes to a place in wait: in yield it stays there, at first it is at the
   start, else by wait itself.
   */
  lemma WaitFrom(s: State, p: nat, c: Choice)
    requires p < |s.procs| && Next(s, p, c).Some? && Next(s, p, c).value.pc.InWait?
    ensures
      var x, a := s.procs[p], Next(s, p, c).value;
      || (a.pc == x.pc && !a.effect.SetParent? && !a.effect.Free? && (x.y != NoYield || c.Interrupt?))
      || a == Act(InWait(Scan(0, false)), NoYield, AcquireWait, Nothing)
      || (x.y == NoYield && x.pc.InWait? && !c.Interrupt? && a == NextWait(s, p, x.pc.w, c))
  {
  }

  /** A place in wait where WaitKnows says something. */
  predicate Knows(pc: Pc) { pc.InWait? && (pc.w.Scan? || pc.w.Look?) }

  lemma WaitTurn(s: State, p: nat, c: Choice)
    requires p < |s.procs| && s.procs[p].pc.InWait? && WaitKnows(s, p) && Knows(NextWait(s, p, s.procs[p].pc.w, c).pc)
    ensures NextWait(s, p, s.procs[p].pc.w, c).effect == Nothing || NextWait(s, p, s.procs[p].pc.w, c).effect == Awake
    ensures
      var s' := s.(procs := s.procs[p := s.procs[p].(pc := NextWait(s, p, s.procs[p].pc.w, c).pc)]);
      WaitKnows(s', p)
  {
    var w, a := s.procs[p].pc.w, NextWait(s, p, s.procs[p].pc.w, c);
    var s' := s.(procs := s.procs[p := s.procs[p].(pc := a.pc)]);
    assert forall z :: 0 <= z < |s.procs| ==> s'.procs[z].parent == s.procs[z].parent;
  }

  /** WaitKnows depends only on the place of p and on who the parents are. */
  lemma KnowsSame(s: State, s': State, p: nat)
    requires p < |s.procs| == |s'.procs| && WaitKnows(s, p) && s'.procs[p].pc == s.procs[p].pc
    requires forall z :: 0 <= z < |s.procs| ==> s'.procs[z].parent == s.procs[z].parent
    ensures WaitKnows(s', p)
  {
  }

  lemma WaitOwn(s: State, e: Event, p: nat)
    requires Inv(s) && Enabled(s, e) && By(s, e, p) && WaitKnows(s, p)
    ensures |Step(s, e).procs| == |s.procs| && WaitKnows(Step(s, e), p)
  {
    var s', a, x := Step(s, e), Next(s, p, e.choice).value, s.procs[p];
    ByThread(s, e, p, p);
    if Knows(a.pc) {
      WaitFrom(s, p, e.choice);
      if a.pc == InWait(Scan(0, false)) {
        assert NoChild(s', p, 0);
      } else if x.y != NoYield || e.choice.Interrupt? {
        forall z | 0 <= z < |s.procs| ensures s'.procs[z].parent == s.procs[z].parent { ByThread(s, e, p, z); }
        KnowsSame(s, s', p);
      } else {
        WaitTurn(s, p, e.choice);
        forall z | 0 <= z < |s.procs| ensures s'.procs[z].parent == s.procs[z].parent { ByThread(s, e, p, z); }
        KnowsSame(s.(procs := s.procs[p := x.(pc := a.pc)]), s', p);
      }
    }
  }

  lemma {:induction false} TraceWait(ss: seq<State>, es: seq<Event>, i: nat, p: nat)
    requires Trace(ss, es) && i < |ss| && p < |ss[0].procs|
    ensures |ss[i].procs| == |ss[0].procs| && WaitKnows(ss[i], p)
  {
    if i > 0 {
      TraceInv(ss, es, i - 1);
      TraceWait(ss, es, i - 1, p);
      assert StepAt(ss, es, i - 1);
      WaitStep(ss[i - 1], es[i - 1], p);
    }
  }

  lemma WaitStep(s: State, e: Event, p: nat)
    requires Inv(s) && Enabled(s, e) && p < |s.procs| && WaitKnows(s, p)
    ensures |Step(s, e).procs| == |s.procs| && WaitKnows(Step(s, e), p)
  {
    if By(s, e, p) { WaitOwn(s, e, p); } else { WaitOther(s, e, p); }
  }

  /**
   In every run, wait finds a child only in a ZOMBIE of its own, and unless the copy of
   the status failed the slot is free from then on, with no parent.
   */
  lemma WaitReaps(ss: seq<State>, es: seq<Event>, i: nat, p: nat, z: nat)
    requires Trace(ss, es) && i < |es| && p < |ss[0].procs| && |ss[i].procs| == |ss[i + 1].procs| == |ss[0].procs|
    requires ss[i].procs[p].pc != InWait(Found(z)) && ss[i + 1].procs[p].pc == InWait(Found(z))
    ensures By(ss[i], es[i], p) && z < |ss[i].procs|
    ensures ss[i].procs[z].state == ZOMBIE && ss[i].procs[z].parent == Some(p)
    ensures if es[i].choice.Fail? then ss[i + 1].procs[z] == ss[i].procs[z]
            else ss[i + 1].procs[z].state == UNUSED && ss[i + 1].procs[z].parent == None
  {
    TraceInv(ss, es, i);
    TraceWait(ss, es, i, p);
    assert StepAt(ss, es, i);
    MovesItself(ss[i], es[i], p);
    Reaps(ss[i], es[i], p, z);
  }

  /** Who comes to another place in wait takes the step itself. */
  lemma MovesItself(s: State, e: Event, p: nat)
    requires Inv(s) && Enabled(s, e) && p < |s.procs| == |Step(s, e).procs|
    requires Step(s, e).procs[p].pc.InWait? && Step(s, e).procs[p].pc != s.procs[p].pc
    ensures By(s, e, p)
  {
    if !By(s, e, p) {
      if s.procs[p].pc.Dead? || s.procs[p].pc.ForkRet? { NotYet(s, e, p); } else { PcStays(s, e, p); }
    }
  }

  lemma Reaps(s: State, e: Event, p: nat, z: nat)
    requires Inv(s) && Enabled(s, e) && By(s, e, p) && WaitKnows(s, p) && |Step(s, e).procs| == |s.procs|
    requires s.procs[p].pc != InWait(Found(z)) && Step(s, e).procs[p].pc == InWait(Found(z))
    ensures z < |s.procs| && s.procs[z].state == ZOMBIE && s.procs[z].parent == Some(p)
    ensures if e.choice.Fail? then Step(s, e).procs[z] == s.procs[z]
            else Step(s, e).procs[z].state == UNUSED && Step(s, e).procs[z].parent == None
  {
    ByThread(s, e, p, p);
    WaitFrom(s, p, e.choice);
    LooksAt(s, p, e.choice, z);
    ByThread(s, e, p, z);
    assert Lineage(s, z) && Kin(s, p, z);
  }

  lemma LooksAt(s: State, p: nat, c: Choice, z: nat)
    requires p < |s.procs| && s.procs[p].pc.InWait? && WaitKnows(s, p)
      && NextWait(s, p, s.procs[p].pc.w, c).pc == InWait(Found(z))
    ensures z < |s.procs| && s.procs[z].state == ZOMBIE && s.procs[z].parent == Some(p)
    ensures NextWait(s, p, s.procs[p].pc.w, c).effect == if c.Fail? then Nothing else Free(z)
  {
  }

  /** A slot leaves UNUSED by the allocation of a fork. */
  ghost predicate Allocates(s: State, e: Event, z: nat) {
    e.Thread? && e.c < |s.cpus| && s.cpus[e.c].pc.Run? && s.cpus[e.c].pc.p < |s.procs| &&
    Next(s, s.cpus[e.c].pc.p, e.choice).Some? && Next(s, s.cpus[e.c].pc.p, e.choice).value.effect == Allocate(z)
  }

  lemma UnusedStays(s: State, e: Event, z: nat)
    requires Inv(s) && Enabled(s, e) && z < |s.procs| && s.procs[z].state == UNUSED
    ensures |Step(s, e).procs| == |s.procs| && (Step(s, e).procs[z].state == UNUSED || Allocates(s, e, z))
  {
    assert ProcInv(s, z);
    if e.Thread? {
      var r := s.cpus[e.c].pc.p;
      ByThread(s, e, r, z);
      assert CpuOk(s, e.c) && ProcInv(s, r) && ForkOk(s, r);
    } else {
      AfterNudge(s, e, z);
    }
  }

  lemma {:induction false} UsedAgain(ss: seq<State>, es: seq<Event>, i: nat, j: nat, z: nat) returns (k: nat)
    requires Trace(ss, es) && i < j < |ss| && |ss[i].procs| == |ss[j].procs| == |ss[0].procs| && z < |ss[0].procs|
    requires ss[i].procs[z].state == UNUSED && ss[j].procs[z].state != UNUSED
    ensures i <= k < j && Allocates(ss[k], es[k], z)
    decreases j - i
  {
    TraceInv(ss, es, j - 1);
    if ss[j - 1].procs[z].state == UNUSED {
      assert StepAt(ss, es, j - 1);
      UnusedStays(ss[j - 1], es[j - 1], z);
      k := j - 1;
    } else {
      k := UsedAgain(ss, es, i, j - 1, z);
    }
  }

  /** In every run, a slot that wait has freed is found by a wait again only after it was allocated again. */
  lemma ReapedOnce(ss: seq<State>, es: seq<Event>, i: nat, p: nat, j: nat, q: nat, z: nat) returns (k: nat)
    requires Trace(ss, es) && i < j < |es| && p < |ss[0].procs| && q < |ss[0].procs|
    requires |ss[i].procs| == |ss[i + 1].procs| == |ss[j].procs| == |ss[j + 1].procs| == |ss[0].procs|
    requires ss[i].procs[p].pc != InWait(Found(z)) && ss[i + 1].procs[p].pc == InWait(Found(z))
    requires ss[j].procs[q].pc != InWait(Found(z)) && ss[j + 1].procs[q].pc == InWait(Found(z))
    requires es[i].Thread? && !es[i].choice.Fail?
    ensures i < k < j && Allocates(ss[k], es[k], z)
  {
    WaitReaps(ss, es, i, p, z);
    WaitReaps(ss, es, j, q, z);
    k := UsedAgain(ss, es, i + 1, j, z);
  }

  /** In every run, wait gives up only if it has found a child, has none, or was killed. */
  lemma WaitGivesUp(ss: seq<State>, es: seq<Event>, i: nat, p: nat)
    requires Trace(ss, es) && i < |es| && p < |ss[0].procs| && |ss[i].procs| == |ss[i + 1].procs| == |ss[0].procs|
    requires ss[i].procs[p].pc != InWait(Return) && ss[i + 1].procs[p].pc == InWait(Return)
    ensures By(ss[i], es[i], p)
    ensures
      || (ss[i].procs[p].pc.InWait? && ss[i].procs[p].pc.w.Found?)
      || es[i].choice.Fail?
      || forall z :: 0 <= z < |ss[i].procs| ==> ss[i].procs[z].parent != Some(p)
  {
    TraceInv(ss, es, i);
    TraceWait(ss, es, i, p);
    assert StepAt(ss, es, i);
    MovesItself(ss[i], es[i], p);
    ByThread(ss[i], es[i], p, p);
    WaitFrom(ss[i], p, es[i].choice);
    GivesUp(ss[i], p, es[i].choice);
  }

  lemma GivesUp(s: State, p: nat, c: Choice)
    requires p < |s.procs| && s.procs[p].pc.InWait? && WaitKnows(s, p)
      && NextWait(s, p, s.procs[p].pc.w, c).pc == InWait(Return)
    ensures s.procs[p].pc.w.Found? || c.Fail? || forall z :: 0 <= z < |s.procs| ==> s.procs[z].parent != Some(p)
  {
  }

  /** A lock has one holder. */
  lemma OneHolder(s: State, p: nat, q: nat, z: nat)
    requires Structure(s) && p < |s.procs| && q < |s.procs| && z < |s.plock|
    requires s.procs[p].on.Some? && s.procs[q].on.Some? && HoldsLock(s.procs[p], p, z) && HoldsLock(s.procs[q], q, z)
    ensures p == q
  {
    assert ProcInv(s, p) && ProcInv(s, q);
    assert LockOk(s, s.procs[p].on.value, z) && LockOk(s, s.procs[q].on.value, z);
  }

  /** The lock of slot z keeps others from allocating it. */
  lemma FoundStep(s: State, e: Event, p: nat, z: nat)
    requires Inv(s) && Enabled(s, e) && p < |s.procs| && z < |s.procs|
    requires s.procs[p].pc == InWait(Found(z)) && s.procs[z].state == UNUSED
    ensures |Step(s, e).procs| == |s.procs| && Step(s, e).procs[z].state == UNUSED && Step(s, e).procs[z].parent == None
  {
    UnusedStays(s, e, z);
    StepInv(s, e);
    assert Lineage(Step(s, e), z) && ProcInv(s, p);
    if Allocates(s, e, z) {
      var r := s.cpus[e.c].pc.p;
      AllocatesLocked(s, r, e.choice, z);
      assert CpuOk(s, e.c);
      OneHolder(s, p, r, z);
    }
  }

  lemma AllocatesLocked(s: State, r: nat, c: Choice, z: nat)
    requires r < |s.procs| && Next(s, r, c).Some? && Next(s, r, c).value.effect == Allocate(z)
    ensures HoldsLock(s.procs[r], r, z) && s.procs[r].pc == InFork(z, AllocTest)
  {
  }

  /** In every run, the slot that wait has freed stays free at least until wait lets go of its lock. */
  lemma {:induction false} ReapedStays(ss: seq<State>, es: seq<Event>, i: nat, j: nat, p: nat, z: nat)
    requires Trace(ss, es) && i < j < |ss| && p < |ss[0].procs| && es[i].Thread? && !es[i].choice.Fail?
    requires forall k :: i <= k <= j ==> |ss[k].procs| == |ss[0].procs|
    requires ss[i].procs[p].pc != InWait(Found(z)) && forall k :: i < k <= j ==> ss[k].procs[p].pc == InWait(Found(z))
    ensures z < |ss[j].procs| && ss[j].procs[z].state == UNUSED && ss[j].procs[z].parent == None
    decreases j
  {
    if j == i + 1 {
      WaitReaps(ss, es, i, p, z);
    } else {
      ReapedStays(ss, es, i, j - 1, p, z);
      TraceInv(ss, es, j - 1);
      assert StepAt(ss, es, j - 1);
      FoundStep(ss[j - 1], es[j - 1], p, z);
    }
  }

  // ---- sleep and wakeup ----

  predicate SleepsOn(s: State, q: nat, ch: Chan) {
    q < |s.procs| && s.procs[q].state == SLEEPING && s.procs[q].chan == ch
  }

  /** In a step p, in wakeup, stays where it is, or wakeup goes on by one place. */
  ghost predicate GoesOnBy(s: State, s': State, p: nat)
    requires p < |s.procs| && s.procs[p].pc.InWake?
  {
    var pc := s.procs[p].pc;
    && |s'.procs| == |s.procs|
    && (s'.procs[p].pc != pc ==>
        match pc.wk
        case Before =>
          if pc.j >= |s.procs| then s'.procs[p].pc == Then(pc.to)
          else s'.procs[p].pc == if pc.j == p then pc.(j := pc.j + 1) else pc.(wk := Testing)
        case Testing => s'.procs[p].pc == pc.(wk := Tested) && !SleepsOn(s', pc.j, pc.ch)
        case Tested => s'.procs[p].pc == pc.(j := pc.j + 1, wk := Before))
  }

  lemma WakeStep(s: State, e: Event, p: nat)
    requires Inv(s) && Enabled(s, e) && p < |s.procs| && s.procs[p].pc.InWake?
    ensures GoesOnBy(s, Step(s, e), p)
  {
    if By(s, e, p) {
      ByThread(s, e, p, p);
      if s.procs[p].pc.j < |s.procs| { ByThread(s, e, p, s.procs[p].pc.j); }
      assert ProcInv(s, p);
    } else {
      PcStays(s, e, p);
    }
  }

  lemma TraceWake(ss: seq<State>, es: seq<Event>, i: nat, p: nat)
    requires Trace(ss, es) && i < |es| && p < |ss[i].procs| && ss[i].procs[p].pc.InWake?
    ensures GoesOnBy(ss[i], ss[i + 1], p)
  {
    TraceInv(ss, es, i);
    assert StepAt(ss, es, i);
    WakeStep(ss[i], es[i], p);
  }

  /** From a to b, p is in one call of wakeup(ch). */
  ghost predicate InCall(ss: seq<State>, a: nat, b: nat, p: nat, ch: Chan, to: Caller) {
    && a <= b < |ss| && |ss[a].procs| > p && ss[a].procs[p].pc == InWake(0, ch, to, Before)
    && forall k :: a <= k <= b ==> CallAt(ss[k], p, ch, to)
  }

  predicate CallAt(s: State, p: nat, ch: Chan, to: Caller) {
    p < |s.procs| && s.procs[p].pc.InWake? && s.procs[p].pc.ch == ch && s.procs[p].pc.to == to
  }

  ghost predicate AwakeIn(ss: seq<State>, a: nat, b: nat, q: nat, ch: Chan) {
    exists k :: a <= k <= b && k < |ss| && !SleepsOn(ss[k], q, ch)
  }

  lemma AwakeLater(ss: seq<State>, a: nat, b: nat, q: nat, ch: Chan)
    requires AwakeIn(ss, a, b, q, ch)
    ensures AwakeIn(ss, a, b + 1, q, ch)
  {
  }

  lemma {:induction false} WakeCovers(ss: seq<State>, es: seq<Event>, a: nat, b: nat, p: nat, ch: Chan, to: Caller,
                                      q: nat)
    requires Trace(ss, es) && InCall(ss, a, b, p, ch, to) && q != p
    requires q < ss[b].procs[p].pc.j || (q == ss[b].procs[p].pc.j && ss[b].procs[p].pc.wk.Tested?)
    ensures AwakeIn(ss, a, b, q, ch)
    decreases b
  {
    assert CallAt(ss[b], p, ch, to);
    if a < b {
      assert CallAt(ss[b - 1], p, ch, to);
      TraceWake(ss, es, b - 1, p);
      var pc := ss[b - 1].procs[p].pc;
      if q < pc.j || (q == pc.j && pc.wk.Tested?) {
        WakeCovers(ss, es, a, b - 1, p, ch, to, q);
        AwakeLater(ss, a, b - 1, q, ch);
      } else {
        assert !SleepsOn(ss[b], q, ch);
      }
    }
  }

  /**
   In every run, when a call of wakeup(ch) has come past the last slot, every other
   process was, at some moment of the call, not asleep on ch: no sleeper is missed.
   */
  lemma WakeupWakes(ss: seq<State>, es: seq<Event>, a: nat, b: nat, p: nat, ch: Chan, to: Caller, q: nat)
    requires Trace(ss, es) && InCall(ss, a, b, p, ch, to) && q != p
    requires ss[b].procs[p].pc.j >= |ss[b].procs|
    ensures AwakeIn(ss, a, b, q, ch)
  {
    if q < |ss[b].procs| {
      WakeCovers(ss, es, a, b, p, ch, to, q);
    } else {
      assert !SleepsOn(ss[b], q, ch);
    }
  }

  /** What becomes of a handler's wakeup on CPU c in one step: nothing, or it goes on by one place. */
  ghost predicate Turns(s: State, s': State, c: nat)
    requires c < |s.cpus| && s.cpus[c].irq.Handler?
  {
    var irq := s.cpus[c].irq;
    && |s'.cpus| == |s.cpus| && |s'.procs| == |s.procs| && s'.cpus[c].cur == s.cpus[c].cur
    && (s'.cpus[c].irq != irq ==>
        match irq.wk
        case Before =>
          if irq.j >= |s.procs| then s'.cpus[c].irq == NoIrq
          else s'.cpus[c].irq == if s.cpus[c].cur == Some(irq.j) then irq.(j := irq.j + 1) else irq.(wk := Testing)
        case Testing => s'.cpus[c].irq == irq.(wk := Tested) && !SleepsOn(s', irq.j, Other(irq.k))
        case Tested => s'.cpus[c].irq == irq.(j := irq.j + 1, wk := Before))
  }

  lemma IrqOwn(s: State, e: Event)
    requires Enabled(s, e) && e.IrqStep?
    ensures Turns(s, Step(s, e), e.c)
  {
  }

  lemma IrqOther(s: State, e: Event, c: nat)
    requires Enabled(s, e) && !e.Thread? && c < |s.cpus| && s.cpus[c].irq.Handler? && !(e.IrqStep? && e.c == c)
    ensures Turns(s, Step(s, e), c)
  {
  }

  lemma IrqTurn(s: State, e: Event, c: nat)
    requires Inv(s) && Enabled(s, e) && c < |s.cpus| && s.cpus[c].irq.Handler?
    ensures Turns(s, Step(s, e), c)
  {
    if e.Thread? {
      var p := s.cpus[e.c].pc.p;
      ActingFrom(s, e);
      ThreadCpu(s, e.c, p, Next(s, p, e.choice).value, c);
      After(s, e.c, p, Next(s, p, e.choice).value, 0);
    } else if e.IrqStep? && e.c == c {
      IrqOwn(s, e);
    } else {
      IrqOther(s, e, c);
    }
  }

  lemma TraceIrq(ss: seq<State>, es: seq<Event>, i: nat, c: nat)
    requires Trace(ss, es) && i < |es| && c < |ss[i].cpus| && ss[i].cpus[c].irq.Handler?
    ensures Turns(ss[i], ss[i + 1], c)
  {
    TraceInv(ss, es, i);
    assert StepAt(ss, es, i);
    IrqTurn(ss[i], es[i], c);
  }

  ghost predicate InHandler(ss: seq<State>, a: nat, b: nat, c: nat, k: nat) {
    && a <= b < |ss| && |ss[a].cpus| > c && ss[a].cpus[c].irq == Handler(0, k, Before)
    && forall i :: a <= i <= b ==> HandlerAt(ss[i], c, k)
  }

  predicate HandlerAt(s: State, c: nat, k: nat) {
    c < |s.cpus| && s.cpus[c].irq.Handler? && s.cpus[c].irq.k == k
  }

  lemma {:induction false} IrqCovers(ss: seq<State>, es: seq<Event>, a: nat, b: nat, c: nat, k: nat, q: nat)
    requires Trace(ss, es) && InHandler(ss, a, b, c, k) && ss[b].cpus[c].cur != Some(q)
    requires q < ss[b].cpus[c].irq.j || (q == ss[b].cpus[c].irq.j && ss[b].cpus[c].irq.wk.Tested?)
    ensures AwakeIn(ss, a, b, q, Other(k))
    decreases b
  {
    assert HandlerAt(ss[b], c, k);
    if a < b {
      assert HandlerAt(ss[b - 1], c, k);
      TraceIrq(ss, es, b - 1, c);
      var irq := ss[b - 1].cpus[c].irq;
      if q < irq.j || (q == irq.j && irq.wk.Tested?) {
        IrqCovers(ss, es, a, b - 1, c, k, q);
        AwakeLater(ss, a, b - 1, q, Other(k));
      } else {
        assert !SleepsOn(ss[b], q, Other(k));
      }
    }
  }

  /** The same for the wakeup of an interrupt handler, but for the process that it interrupted. */
  lemma IrqWakesAll(ss: seq<State>, es: seq<Event>, a: nat, b: nat, c: nat, k: nat, q: nat)
    requires Trace(ss, es) && InHandler(ss, a, b, c, k) && ss[b].cpus[c].cur != Some(q)
    requires ss[b].cpus[c].irq.j >= |ss[b].procs|
    ensures AwakeIn(ss, a, b, q, Other(k))
  {
    if q < |ss[b].procs| {
      IrqCovers(ss, es, a, b, c, k, q);
    } else {
      assert !SleepsOn(ss[b], q, Other(k));
    }
  }

  /** Step e wakes q: a wakeup on ch has come to its slot, of a thread or of a handler, or it is killed. */
  predicate Wakes(s: State, e: Event, q: nat, ch: Chan) {
    && e.c < |s.cpus|
    && if e.Thread? then
         && s.cpus[e.c].pc.Run? && s.cpus[e.c].pc.p < |s.procs|
         && var pc := s.procs[s.cpus[e.c].pc.p].pc;
            (pc.InWake? && pc.j == q && pc.wk.Testing? && pc.ch == ch) || pc == InKill(q, false)
       else
         e.IrqStep? && s.cpus[e.c].irq.Handler? && s.cpus[e.c].irq.j == q && s.cpus[e.c].irq.wk.Testing?
         && ch == Other(s.cpus[e.c].irq.k)
  }

  lemma PutsSleeper(s: State, p: nat, c: Choice, q: nat)
    requires p < |s.procs| && Running(s, p) && q < |s.procs| && s.procs[q].state == SLEEPING && q != p
    requires Next(s, p, c).Some? && Next(s, p, c).value.effect == Put(q) && (s.procs[p].y == YieldLocked ==> q == p)
    ensures
      var pc := s.procs[p].pc;
      (pc.InWake? && pc.j == q && pc.wk.Testing? && pc.ch == s.procs[q].chan) || pc == InKill(q, false)
  {
    assert ForkOk(s, p);
  }

  /** In every run, a sleeper goes on only when a wakeup on its channel or a kill comes to it. */
  lemma WokenForCause(ss: seq<State>, es: seq<Event>, i: nat, q: nat, ch: Chan)
    requires Trace(ss, es) && i < |es| && SleepsOn(ss[i], q, ch) && !SleepsOn(ss[i + 1], q, ch)
    ensures Wakes(ss[i], es[i], q, ch) && q < |ss[i + 1].procs| && ss[i + 1].procs[q].state == RUNNABLE
  {
    TraceInv(ss, es, i);
    assert StepAt(ss, es, i);
    Woken(ss[i], es[i], q);
  }

  lemma Woken(s: State, e: Event, q: nat)
    requires Inv(s) && Enabled(s, e) && q < |s.procs| && s.procs[q].state == SLEEPING
    ensures |Step(s, e).procs| == |s.procs|
    ensures SleepsOn(Step(s, e), q, s.procs[q].chan) ||
      (Wakes(s, e, q, s.procs[q].chan) && Step(s, e).procs[q].state == RUNNABLE)
  {
    assert ProcInv(s, q);
    if e.Thread? {
      var r := s.cpus[e.c].pc.p;
      ByThread(s, e, r, q);
      assert CpuOk(s, e.c) && ProcInv(s, r) && ForkOk(s, r);
      if q != r && Next(s, r, e.choice).value.effect == Put(q) { PutsSleeper(s, r, e.choice, q); }
    } else {
      AfterNudge(s, e, q);
    }
  }

  /** What a step does to a process that has called sleep(k) and is not yet asleep. */
  lemma FallsAsleep(s: State, e: Event, p: nat, k: nat)
    requires Inv(s) && Enabled(s, e) && p < |s.procs| && s.procs[p].pc == InSleep(SleepLocked(k))
    ensures |Step(s, e).procs| == |s.procs|
    ensures
      var x := Step(s, e).procs[p];
      if By(s, e, p) then x.state == SLEEPING && x.chan == Other(k)
      else x.pc == InSleep(SleepLocked(k)) && x.state != SLEEPING
  {
    if By(s, e, p) {
      ByThread(s, e, p, p);
    } else {
      PcStays(s, e, p);
      StaysAwake(s, e, p);
    }
  }

  /** Only a process itself goes to sleep. */
  lemma StaysAwake(s: State, e: Event, p: nat)
    requires Inv(s) && Enabled(s, e) && p < |s.procs| && !By(s, e, p) && s.procs[p].pc.InSleep?
      && s.procs[p].pc.sl.SleepLocked?
    ensures |Step(s, e).procs| == |s.procs| && Step(s, e).procs[p].state != SLEEPING
  {
    assert ProcInv(s, p);
    if e.Thread? { ByThread(s, e, s.cpus[e.c].pc.p, p); } else { AfterNudge(s, e, p); }
  }

  lemma CallsSleep(s: State, e: Event, p: nat, k: nat)
    requires Inv(s) && Enabled(s, e) && By(s, e, p) && s.procs[p].pc.User? && s.procs[p].y == NoYield
      && e.choice == SleepOn(k)
    ensures |Step(s, e).procs| == |s.procs|
    ensures Step(s, e).procs[p].pc == InSleep(SleepLocked(k)) && Step(s, e).procs[p].state != SLEEPING
  {
    assert CpuOk(s, e.c) && ProcInv(s, p);
    ByThread(s, e, p, p);
  }

  /** In every run, a process that calls sleep(k) next sleeps on the channel k. */
  lemma {:induction false} SleepsOnChannel(ss: seq<State>, es: seq<Event>, i: nat, j: nat, p: nat, k: nat)
    requires Trace(ss, es) && i < j < |ss| && p < |ss[0].procs|
    requires forall m :: i <= m <= j ==> |ss[m].procs| == |ss[0].procs|
    requires By(ss[i], es[i], p) && ss[i].procs[p].pc.User? && ss[i].procs[p].y == NoYield && es[i].choice == SleepOn(k)
    requires forall m :: i < m < j ==> ss[m].procs[p].state != SLEEPING
    ensures if ss[j].procs[p].state == SLEEPING then SleepsOn(ss[j], p, Other(k))
            else ss[j].procs[p].pc == InSleep(SleepLocked(k))
    decreases j
  {
    TraceInv(ss, es, j - 1);
    assert StepAt(ss, es, j - 1);
    if j == i + 1 {
      CallsSleep(ss[i], es[i], p, k);
    } else {
      SleepsOnChannel(ss, es, i, j - 1, p, k);
      FallsAsleep(ss[j - 1], es[j - 1], p, k);
    }
  }

  // ---- kill, fork and exit ----

  /** Between the store of chan and its reset in sleep. */
  predicate HasChan(pc: Pc) {
    || (pc.InSleep? && (pc.sl.SleepSet? || pc.sl.SleepResume?))
    || (pc.InWait? && (pc.w.Asleep? || pc.w.Resume?))
  }

  predicate ChanOk(x: Proc) { x.chan != NoChan ==> HasChan(x.pc) }

  lemma ChanOwn(s: State, p: nat, c: Choice)
    requires p < |s.procs| && Next(s, p, c).Some? && ChanOk(s.procs[p])
    ensures ChanOk(OwnStep(s.procs[p], p, Next(s, p, c).value))
  {
  }

  lemma ChanOther(s: State, e: Event, r: nat, p: nat)
    requires Inv(s) && Enabled(s, e) && By(s, e, r) && p < |s.procs| && p != r && ChanOk(s.procs[p])
    ensures |Step(s, e).procs| == |s.procs| && ChanOk(Step(s, e).procs[p])
  {
    ByThread(s, e, r, p);
    if HasChan(s.procs[p].pc) { PcStays(s, e, p); }
  }

  lemma ChanStep(s: State, e: Event, p: nat)
    requires Inv(s) && Enabled(s, e) && p < |s.procs| && ChanOk(s.procs[p])
    ensures |Step(s, e).procs| == |s.procs| && ChanOk(Step(s, e).procs[p])
  {
    if !e.Thread? {
      AfterNudge(s, e, p);
    } else if By(s, e, p) {
      ByThread(s, e, p, p);
      ChanOwn(s, p, e.choice);
    } else {
      ChanOther(s, e, s.cpus[e.c].pc.p, p);
    }
  }

  /** In every run, chan is set only between the two ends of a sleep, and is 0 again when sleep returns. */
  lemma {:induction false} ChanInSleep(ss: seq<State>, es: seq<Event>, i: nat, p: nat)
    requires Trace(ss, es) && i < |ss| && p < |ss[0].procs|
    ensures p < |ss[i].procs| && ChanOk(ss[i].procs[p])
  {
    if i > 0 {
      ChanInSleep(ss, es, i - 1, p);
      TraceInv(ss, es, i - 1);
      assert StepAt(ss, es, i - 1);
      ChanStep(ss[i - 1], es[i - 1], p);
    }
  }

  /** In every run, kill leaves its target not asleep: a sleeper has become RUNNABLE and is in the heap. */
  lemma KillWakes(ss: seq<State>, es: seq<Event>, i: nat, p: nat, t: nat)
    requires Trace(ss, es) && i < |es| && p < |ss[i].procs| && p < |ss[i + 1].procs| && t < |ss[i].procs|
    requires ss[i].procs[p].pc == InKill(t, false) && ss[i + 1].procs[p].pc != ss[i].procs[p].pc
    ensures ss[i + 1].procs[p].pc == InKill(t, true) && t < |ss[i + 1].procs| && ss[i + 1].procs[t].state != SLEEPING
    ensures ss[i].procs[t].state == SLEEPING ==> ss[i + 1].procs[t].state == RUNNABLE && t in ss[i + 1].heap
  {
    TraceInv(ss, es, i);
    assert StepAt(ss, es, i);
    if !By(ss[i], es[i], p) { PcStays(ss[i], es[i], p); }
    assert ProcInv(ss[i], p);
    ByThread(ss[i], es[i], p, p);
    ByThread(ss[i], es[i], p, t);
  }

  /** In every run, fork ends with a child of its own, RUNNABLE, in the heap and at its first instruction. */
  lemma ForkGives(ss: seq<State>, es: seq<Event>, i: nat, p: nat, t: nat)
    requires Trace(ss, es) && i < |es| && p < |ss[i].procs| && p < |ss[i + 1].procs|
    requires ss[i].procs[p].pc != InFork(t, PutDone) && ss[i + 1].procs[p].pc == InFork(t, PutDone)
    ensures t < |ss[i + 1].procs| && t != p && t in ss[i + 1].heap
    ensures
      var x := ss[i + 1].procs[t];
      x.state == RUNNABLE && x.parent == Some(p) && x.pc == ForkRet && x.y == NoYield
  {
    var s, e := ss[i], es[i];
    TraceInv(ss, es, i);
    assert StepAt(ss, es, i);
    if !By(s, e, p) {
      if s.procs[p].pc.Dead? || s.procs[p].pc.ForkRet? { NoForkYet(s, e, p); } else { PcStays(s, e, p); }
    }
    ByThread(s, e, p, p);
    assert ProcInv(s, p) && ForkOk(s, p) && Stage(s, p);
    PutsChild(s, p, e.choice, t);
    ByThread(s, e, p, t);
    assert ProcInv(s, t);
    ActingFrom(s, e);
    TargetIdles(s, e.c, p, Next(s, p, e.choice).value, t);
  }

  lemma FailsStep(s: State, e: Event, p: nat, t: nat)
    requires Inv(s) && Enabled(s, e) && By(s, e, p) && t < |s.procs| && t != p
    requires s.procs[p].pc == InFork(t, Copying) && p < |Step(s, e).procs|
    requires Step(s, e).procs[p].pc == InFork(t, AllocFail)
    ensures
      var s' := Step(s, e);
      |s'.procs| == |s.procs| && s'.heap == s.heap
      && s'.procs[t].state == UNUSED && s'.procs[t].parent == None && s'.procs[t].pc == Dead
  {
    ByThread(s, e, p, p);
    ByThread(s, e, p, t);
  }

  /**
   In every run, a fork that fails after it has taken slot t leaves t UNUSED again, without
   a parent, and queues nothing.
   */
  lemma ForkFails(ss: seq<State>, es: seq<Event>, i: nat, p: nat, t: nat)
    requires Trace(ss, es) && i < |es| && p < |ss[i].procs| && p < |ss[i + 1].procs| && t < |ss[i].procs|
    requires ss[i].procs[p].pc == InFork(t, Copying) && ss[i + 1].procs[p].pc == InFork(t, AllocFail)
    ensures t < |ss[i + 1].procs| && ss[i + 1].procs[t].state == UNUSED && ss[i + 1].procs[t].parent == None
    ensures ss[i + 1].procs[t].pc == Dead && ss[i + 1].heap == ss[i].heap
  {
    TraceInv(ss, es, i);
    assert StepAt(ss, es, i);
    if !By(ss[i], es[i], p) { PcStays(ss[i], es[i], p); }
    ForksOther(ss[i], p);
    FailsStep(ss[i], es[i], p, t);
  }

  lemma ForksOther(s: State, p: nat)
    requires Inv(s) && p < |s.procs| && s.procs[p].pc.InFork? && s.procs[p].pc.fk.Copying?
    ensures s.procs[p].pc.t != p
  {
    assert ProcInv(s, p) && ForkOk(s, p);
  }

  lemma NoForkYet(s: State, e: Event, p: nat)
    requires Inv(s) && Enabled(s, e) && p < |s.procs| && !By(s, e, p) && (s.procs[p].pc.Dead? || s.procs[p].pc.ForkRet?)
    ensures |Step(s, e).procs| == |s.procs| && !Step(s, e).procs[p].pc.InFork?
  {
    if e.Thread? { ByThread(s, e, s.cpus[e.c].pc.p, p); } else { AfterNudge(s, e, p); }
  }

  lemma PutsChild(s: State, p: nat, c: Choice, t: nat)
    requires p < |s.procs| && Next(s, p, c).Some? && Next(s, p, c).value.pc == InFork(t, PutDone)
    requires s.procs[p].pc != InFork(t, PutDone)
    ensures s.procs[p].pc == InFork(t, PutLocked) && Next(s, p, c).value.effect == Put(t)
  {
  }

  /** In every run, exit leaves a ZOMBIE with a parent and without children. */
  lemma ExitLeaves(ss: seq<State>, es: seq<Event>, i: nat, p: nat)
    requires Trace(ss, es) && i < |ss| && p < |ss[i].procs| && ss[i].procs[p].pc == InExit(Zombie)
    ensures ss[i].procs[p].state == ZOMBIE && ss[i].procs[p].parent.Some?
    ensures forall z :: 0 <= z < |ss[i].procs| ==> ss[i].procs[z].parent != Some(p)
  {
    TraceInv(ss, es, i);
    assert ProcInv(ss[i], p) && Lineage(ss[i], p) && Stage(ss[i], p);
    forall z | 0 <= z < |ss[i].procs| ensures ss[i].procs[z].parent != Some(p) { assert Kin(ss[i], p, z); }
  }

  // ---- calls end ----

  /** The steps of wakeup from slot j on, with n slots. */
  function WakeToGo(n: nat, j: nat, wk: WakeAt): int {
    3 * (n - Min(j, n)) + match wk case Before => 1 case Testing => 0 case Tested => -1
  }

  /** The steps of exit from slot i of reparent on: a wakeup for each slot left and for the parent. */
  function ExitToGo(n: nat, i: nat): int { (n - Min(i, n)) * (3 * n + 2) + 3 * n + 6 }

  /** The most steps that a thread still takes before it is back at User, gives up its CPU or ends. */
  function ToGo(n: nat, pc: Pc): int {
    match pc
    case Dead => 0
    case User => 0
    case ForkRet => 1
    case InSleep(sl) => (match sl case SleepLocked(_) => 2 case SleepSet => 1 case SleepResume => 1)
    case InKill(_, done) => if done then 1 else 2
    case InWake(j, _, to, wk) =>
      WakeToGo(n, j, wk) + (match to case FromUser => 0 case FromReparent(i) => ExitToGo(n, i + 1) case FromExit => 4)
    case InFork(_, fk) =>
      (match fk
       case AllocTest => 8
       case AllocFail => 1
       case Copying => 7
       case Copied => 6
       case Adopting => 5
       case Adopted => 4
       case PutCall => 3
       case PutLocked => 2
       case PutDone => 1)
    case InWait(w) =>
      (match w
       case Scan(i, _) => 3 * (n - Min(i, n)) + 5
       case Look(i, _) => 3 * (n - Min(i, n)) + 4
       case Alive(i) => 3 * (n - Min(i, n)) + 3
       case Found(_) => 2
       case Return => 1
       case ToSleep => 4
       case Locked => 3
       case Unlocked => 2
       case Asleep => 1
       case Resume => 3 * n + 7
       case Again => 3 * n + 6)
    case InExit(ex) =>
      (match ex
       case Reparent(i) => ExitToGo(n, i)
       case ExitLock => 4
       case ExitLocked => 3
       case Zombie => 2
       case ExitSwitch => 1)
  }

  /** No call of a system with n processes takes more steps. */
  function MostSteps(n: nat): nat { (n + 2) * (3 * n + 2) + 8 }

  lemma ToGoBound(n: nat, pc: Pc)
    requires pc.InWake? && !pc.wk.Before? ==> pc.j < n
    ensures 0 <= ToGo(n, pc) <= MostSteps(n)
  {
    if pc.InWake? && pc.to.FromReparent? { ExitBound(n, pc.to.i + 1); }
    if pc.InExit? && pc.ex.Reparent? { ExitBound(n, pc.ex.i); }
    assert (n + 2) * (3 * n + 2) == n * (3 * n + 2) + 6 * n + 4;
    assert n * (3 * n + 2) >= 0;
  }

  lemma ExitBound(n: nat, i: nat)
    ensures 3 * n + 6 <= ExitToGo(n, i) <= n * (3 * n + 2) + 3 * n + 6
  {
    var k, m := n - Min(i, n), 3 * n + 2;
    assert 0 <= k * m <= n * m;
  }

  lemma ExitNext(n: nat, i: nat)
    requires i < n
    ensures ExitToGo(n, i) == ExitToGo(n, i + 1) + 3 * n + 2
  {
    var k, m := n - i, 3 * n + 2;
    assert k * m == (k - 1) * m + m;
  }

  /** A step of the thread's own call, and not one of the yield that interrupted it. */
  ghost predicate Works(s: State, e: Event, p: nat) {
    By(s, e, p) && s.procs[p].y == NoYield && !e.choice.Interrupt?
  }

  lemma NearerWait(s: State, p: nat, w: WaitAt, c: Choice)
    requires w.Look? || w.Alive? ==> w.i < |s.procs|
    ensures
      var a, n := NextWait(s, p, w, c), |s.procs|;
      a.effect == Switch || a.pc == User || ToGo(n, a.pc) < ToGo(n, InWait(w))
  {
  }

  lemma NearerWake(s: State, p: nat, pc: Pc)
    requires pc.InWake? && (!pc.wk.Before? ==> pc.j < |s.procs|)
    ensures
      var a, n := NextWake(s, p, pc), |s.procs|;
      a.pc == User || ToGo(n, a.pc) < ToGo(n, pc)
  {
  }

  lemma NearerExit(s: State, p: nat, ex: ExitAt)
    requires p < |s.procs| && NextExit(s, p, ex).Some?
    ensures
      var a, n := NextExit(s, p, ex).value, |s.procs|;
      a.effect == Switch || ToGo(n, a.pc) < ToGo(n, InExit(ex))
  {
    if ex.Reparent? && ex.i < |s.procs| { ExitNext(|s.procs|, ex.i); }
  }

  /** Each step of a call brings it nearer to its end. */
  lemma Nearer(s: State, p: nat, c: Choice)
    requires p < |s.procs| && Next(s, p, c).Some? && s.procs[p].y == NoYield && !c.Interrupt?
    requires !s.procs[p].pc.User? && (OtherLock(s.procs[p].pc).Some? ==> OtherLock(s.procs[p].pc).value < |s.procs|)
    ensures
      var a, n := Next(s, p, c).value, |s.procs|;
      a.effect == Switch || a.pc == User || ToGo(n, a.pc) < ToGo(n, s.procs[p].pc)
  {
    var pc := s.procs[p].pc;
    match pc
    case InWait(w) => NearerWait(s, p, w, c);
    case InWake(_, _, _, _) => NearerWake(s, p, pc);
    case InExit(ex) => NearerExit(s, p, ex);
    case _ =>
  }

  /** The steps of p's call among steps i .. j - 1; preemptions do not count. */
  ghost function Work(ss: seq<State>, es: seq<Event>, i: nat, j: nat, p: nat): nat
    requires i <= j <= |es| < |ss|
  {
    if i == j then 0 else Work(ss, es, i, j - 1, p) + if Works(ss[j - 1], es[j - 1], p) then 1 else 0
  }

  ghost predicate InKernel(ss: seq<State>, k: nat, p: nat)
    requires k < |ss|
  {
    p < |ss[k].procs| && var pc := ss[k].procs[p].pc; !pc.Dead? && !pc.User? && !pc.ForkRet?
  }

  /** The thread gives up its CPU of its own accord: in sleep, or at the end of exit. */
  ghost predicate GivesUpCpu(ss: seq<State>, es: seq<Event>, k: nat, p: nat)
    requires k < |es| < |ss|
  {
    Works(ss[k], es[k], p) && Next(ss[k], p, es[k].choice).Some? && Next(ss[k], p, es[k].choice).value.effect == Switch
  }

  /** From state i to state j thread p is inside one call, and does not go to sleep. */
  ghost predicate InOneCall(ss: seq<State>, es: seq<Event>, i: nat, j: nat, p: nat)
    requires |ss| == |es| + 1
  {
    && i <= j < |ss| && (forall k :: i <= k <= j ==> InKernel(ss, k, p))
    && forall k :: i <= k < j ==> !GivesUpCpu(ss, es, k, p)
  }

  lemma WorkStep(s: State, e: Event, p: nat)
    requires Inv(s) && Enabled(s, e) && p < |s.procs| && p < |Step(s, e).procs|
    requires !s.procs[p].pc.Dead? && !s.procs[p].pc.User? && !s.procs[p].pc.ForkRet?
    requires Works(s, e, p) ==> Next(s, p, e.choice).Some? ==> Next(s, p, e.choice).value.effect != Switch
    requires Step(s, e).procs[p].pc != User
    ensures
      ToGo(|s.procs|, Step(s, e).procs[p].pc) <= ToGo(|s.procs|, s.procs[p].pc) - if Works(s, e, p) then 1 else 0
  {
    assert OtherIn(s, p);
    if By(s, e, p) {
      ByThread(s, e, p, p);
      if Works(s, e, p) { Nearer(s, p, e.choice); }
    } else {
      PcStays(s, e, p);
    }
  }

  ghost function StepsLeft(ss: seq<State>, k: nat, p: nat): int
    requires k < |ss| && InKernel(ss, k, p)
  {
    ToGo(|ss[0].procs|, ss[k].procs[p].pc)
  }

  lemma StepsBound(ss: seq<State>, es: seq<Event>, k: nat, p: nat)
    requires Trace(ss, es) && k < |ss| && InKernel(ss, k, p)
    ensures 0 <= StepsLeft(ss, k, p) <= MostSteps(|ss[0].procs|)
  {
    TraceInv(ss, es, k);
    assert OtherIn(ss[k], p);
    ToGoBound(|ss[0].procs|, ss[k].procs[p].pc);
  }

  lemma StepsFall(ss: seq<State>, es: seq<Event>, k: nat, p: nat)
    requires Trace(ss, es) && k < |es| && InKernel(ss, k, p) && InKernel(ss, k + 1, p) && !GivesUpCpu(ss, es, k, p)
    ensures StepsLeft(ss, k + 1, p) <= StepsLeft(ss, k, p) - if Works(ss[k], es[k], p) then 1 else 0
  {
    TraceInv(ss, es, k);
    assert StepAt(ss, es, k);
    WorkStep(ss[k], es[k], p);
  }

  /**
   In every run, a thread takes a bounded number of steps in a call, preemptions apart, until
   it is back at User, gives up its CPU or ends: no call loops, whatever the others do meanwhile.
   */
  lemma {:induction false} CallEnds(ss: seq<State>, es: seq<Event>, i: nat, j: nat, p: nat)
    requires Trace(ss, es) && InOneCall(ss, es, i, j, p)
    ensures InKernel(ss, i, p) && InKernel(ss, j, p)
    ensures Work(ss, es, i, j, p) <= StepsLeft(ss, i, p) - StepsLeft(ss, j, p)
    ensures Work(ss, es, i, j, p) <= MostSteps(|ss[0].procs|)
    decreases j
  {
    assert InKernel(ss, i, p) && InKernel(ss, j, p);
    if i < j {
      assert InKernel(ss, j - 1, p) && !GivesUpCpu(ss, es, j - 1, p);
      CallEnds(ss, es, i, j - 1, p);
      StepsFall(ss, es, j - 1, p);
    }
    StepsBound(ss, es, i, p);
    StepsBound(ss, es, j, p);
  }

  /** The steps of the handler on CPU c among steps a .. b - 1. */
  ghost function IrqWork(es: seq<Event>, a: nat, b: nat, c: nat): nat
    requires a <= b <= |es|
  {
    if a == b then 0 else IrqWork(es, a, b - 1, c) + if es[b - 1] == IrqStep(c) then 1 else 0
  }

  lemma IrqNearer(s: State, e: Event, c: nat)
    requires Inv(s) && Enabled(s, e) && c < |s.cpus| && s.cpus[c].irq.Handler?
    ensures
      var irq, s' := s.cpus[c].irq, Step(s, e);
      |s'.cpus| == |s.cpus| && (s'.cpus[c].irq.Handler? ==>
        WakeToGo(|s.procs|, s'.cpus[c].irq.j, s'.cpus[c].irq.wk) <=
        WakeToGo(|s.procs|, irq.j, irq.wk) - if e == IrqStep(c) then 1 else 0)
  {
    IrqTurn(s, e, c);
    assert IrqOk(s, c);
  }

  /** In every run, a handler's wakeup takes at most three steps for each process, and one to return. */
  lemma {:induction false} HandlerEnds(ss: seq<State>, es: seq<Event>, a: nat, b: nat, c: nat, k: nat)
    requires Trace(ss, es) && InHandler(ss, a, b, c, k)
    ensures HandlerAt(ss[b], c, k)
    ensures
      var n, irq := |ss[0].procs|, ss[b].cpus[c].irq;
      IrqWork(es, a, b, c) + WakeToGo(n, irq.j, irq.wk) <= 3 * n + 1 && IrqWork(es, a, b, c) <= 3 * n + 1
    decreases b
  {
    assert HandlerAt(ss[b], c, k);
    TraceInv(ss, es, b);
    assert IrqOk(ss[b], c);
    if a < b {
      TraceInv(ss, es, b - 1);
      assert StepAt(ss, es, b - 1) && HandlerAt(ss[b - 1], c, k);
      HandlerEnds(ss, es, a, b - 1, c, k);
      IrqNearer(ss[b - 1], es[b - 1], c);
    }
  }
}
