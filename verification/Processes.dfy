/**
 What every run of the scheduler, of sleep and wakeup and of fork, exit and wait
 keeps (kernel/proc.c): no RUNNABLE process is forgotten, every process but the
 first has a living parent, and no process sleeps in wait past a child's exit.
 */
module Processes {
  import opened Common
  import opened ProcState
  import opened Scheduler

  // ---- no runnable process is forgotten ----

  /** scheduler() on CPU c has taken p from the heap and not yet looked at its state. */
  predicate Fetched(s: State, c: nat, p: nat) {
    c < |s.cpus| && (s.cpus[c].pc == InHand(p) || s.cpus[c].pc == Test(p))
  }

  ghost predicate Ready(s: State, p: nat)
    requires p < |s.procs|
  {
    s.procs[p].state == RUNNABLE ==> p in s.heap || exists c :: Fetched(s, c, p)
  }

  lemma ReadyThread(s: State, c: nat, p: nat, a: Act, r: nat)
    requires Acting(s, c, p, a) && r < |s.procs| && Ready(s, r)
    ensures
      var s' := ThreadStep(s, c, p, a);
      |s'.procs| == |s.procs| && Ready(s', r)
  {
    var s' := ThreadStep(s, c, p, a);
    After(s, c, p, a, r);
    if d :| Fetched(s, d, r) {
      ThreadCpu(s, c, p, a, d);
      assert Fetched(s', d, r);
    }
  }

  /** A step of an interrupt handler takes nothing out of a scheduler's hands, and makes RUNNABLE what it puts. */
  lemma ReadyIrq(s: State, e: Event, r: nat)
    requires Enabled(s, e) && (e.IrqEnter? || e.IrqStep?) && r < |s.procs| && Ready(s, r)
    ensures
      var s' := Step(s, e);
      |s'.procs| == |s.procs| && Ready(s', r)
  {
    if d :| Fetched(s, d, r) { assert Fetched(Step(s, e), d, r); }
  }

  lemma ReadyScheduler(s: State, e: Event, r: nat)
    requires Structure(s) && Enabled(s, e) && !e.Thread? && r < |s.procs| && Ready(s, r)
    ensures
      var s' := Step(s, e);
      |s'.procs| == |s.procs| && Ready(s', r)
  {
    if e.IrqEnter? || e.IrqStep? {
      ReadyIrq(s, e, r);
    } else {
      ReadyLoop(s, e, r);
    }
  }

  /** A step of the scheduler loop. */
  lemma ReadyLoop(s: State, e: Event, r: nat)
    requires Enabled(s, e) && !e.Thread? && !e.IrqEnter? && !e.IrqStep? && r < |s.procs| && Ready(s, r)
    ensures
      var s' := Step(s, e);
      |s'.procs| == |s.procs| && Ready(s', r)
  {
    var s' := Step(s, e);
    assert e.Get? && e.p == r ==> Fetched(s', e.c, r);
    if d :| Fetched(s, d, r) {
      assert (e.Decide? && d == e.c) || Fetched(s', d, r);
    }
  }

  // ---- parents and children ----

  predicate Live(st: PState) { st == SLEEPING || st == RUNNABLE || st == RUNNING }

  /** exit has moved slot z away from this process. */
  predicate PastReparent(pc: Pc, z: nat) {
    match pc
    case InExit(ex) => ex.Reparent? ==> z < ex.i
    case InWake(_, _, to, _) => to.FromExit? || (to.FromReparent? && z <= to.i)
    case _ => false
  }

  /** wait has looked at slot z since it took wait_lock. */
  predicate Scanned(pc: Pc, z: nat) {
    && pc.InWait?
    && match pc.w
       case Scan(i, _) => z < i
       case Look(i, _) => z < i
       case Alive(i) => z <= i
       case _ => false
  }

  /** In wait, on the way to sleep, or asleep, and not yet woken. */
  predicate Committed(x: Proc) {
    && x.pc.InWait?
    && (x.pc.w.ToSleep? || x.pc.w.Locked? || x.pc.w.Unlocked? || x.pc.w.Asleep? ||
        (x.pc.w.Resume? && x.state == SLEEPING))
  }

  /** The wakeup of slot q by exit is over. */
  predicate Passed(pc: Pc, q: nat) {
    || (pc.InWake? && pc.to.FromExit? && (pc.j > q || (pc.j == q && pc.wk.Tested?)))
    || pc == InExit(ExitLock) || pc == InExit(ExitLocked)
  }

  /** A wakeup in reparent has yet to come to slot q. */
  predicate Waking(pc: Pc, q: nat) {
    pc.InWake? && pc.to.FromReparent? && (pc.j < q || (pc.j == q && !pc.wk.Tested?))
  }

  predicate WakesAt(pc: Pc, q: nat) { pc.InWake? && pc.to != FromUser && pc.j == q && pc.wk.Testing? }

  ghost predicate Pending(s: State) {
    exists e :: 0 <= e < |s.procs| && Waking(s.procs[e].pc, s.init)
  }

  predicate Exiting(pc: Pc) { pc.InExit? || (pc.InWake? && pc.to != FromUser) }

  /** fork has made its child a child of this process and not yet runnable. */
  predicate Adopts(pc: Pc) { pc.InFork? && (pc.fk.Adopted? || pc.fk.PutCall? || pc.fk.PutLocked?) }

  /** Every process in use but the first has a parent. */
  predicate Lineage(s: State, e: nat)
    requires e < |s.procs|
  {
    var x := s.procs[e];
    && (if e == s.init then x.parent == None && Live(x.state)
        else (Live(x.state) || x.state == ZOMBIE ==> x.parent.Some?))
    && (x.state == UNUSED ==> x.parent == None)
    && (x.parent.Some? ==> x.parent.value < |s.procs|)
  }

  /** Whom an exiting process wakes, and whose parent a forking one is. */
  predicate Stage(s: State, e: nat)
    requires e < |s.procs|
  {
    var x := s.procs[e];
    && (Exiting(x.pc) ==> e != s.init)
    && (x.pc.InWake? && x.pc.to.FromExit? ==> x.parent.Some? && x.pc.ch == Ptr(x.parent.value))
    && (x.pc.InWake? && x.pc.to.FromReparent? ==> x.pc.ch == Ptr(s.init))
    && (Adopts(x.pc) ==> x.pc.t < |s.procs| && s.procs[x.pc.t].parent == Some(e))
  }

  /** What holds of a child z of q. */
  ghost predicate Child(s: State, q: nat, z: nat)
    requires q < |s.procs| && z < |s.procs|
  {
    var x := s.procs[q];
    && q != z && Live(x.state) && !PastReparent(x.pc, z)
    && (s.procs[z].state == ZOMBIE ==> !Scanned(x.pc, z) && (Committed(x) ==> q == s.init && Pending(s)))
    && (Passed(s.procs[z].pc, q) ==> !Committed(x))
  }

  ghost predicate Kin(s: State, q: nat, z: nat)
    requires q < |s.procs| && z < |s.procs|
  {
    s.procs[z].parent == Some(q) ==> Child(s, q, z)
  }

  ghost predicate Inv(s: State) {
    && Structure(s) && s.init < |s.procs|
    && (forall p :: 0 <= p < |s.procs| ==> Ready(s, p))
    && (forall p :: 0 <= p < |s.procs| ==> Lineage(s, p))
    && (forall p :: 0 <= p < |s.procs| ==> Stage(s, p))
    && (forall q, z :: 0 <= q < |s.procs| && 0 <= z < |s.procs| ==> Kin(s, q, z))
  }

  // ---- facts about the actions ----

  /** What an action of p does to the parent and to the state of process q. */
  ghost predicate ParentFact(s: State, p: nat, a: Act, q: nat)
    requires p < |s.procs| && q < |s.procs|
  {
    var x := s.procs[p];
    && (a.effect.SetParent? && a.effect.q == q ==>
          && WaitLock(x.pc)
          && ((x.pc == InFork(q, Adopting) && a.effect.parent == p && a.pc == InFork(q, Adopted))
              || (x.pc == InExit(Reparent(q)) && s.procs[q].parent == Some(p) && a.effect.parent == s.init
                  && a.pc == InWake(0, Ptr(s.init), FromReparent(q), Before))))
    && (a.effect == Exited ==> x.pc == InExit(ExitLocked))
    && (a.effect == Put(q) && q != p && s.procs[q].state != SLEEPING ==> x.pc == InFork(q, PutLocked))
  }

  /** Where an action of p leads. */
  ghost predicate PlaceFact(s: State, p: nat, a: Act)
    requires p < |s.procs|
  {
    var x := s.procs[p];
    && (Exiting(a.pc) ==> Exiting(x.pc) || p != s.init)
    && (a.pc.InWake? && a.pc.to.FromExit? ==>
          (x.pc.InWake? && x.pc.to.FromExit? && a.pc.ch == x.pc.ch) ||
            (x.parent.Some? && a.pc.ch == Ptr(x.parent.value)))
    && (a.pc.InWake? && a.pc.to.FromReparent? ==>
          (x.pc.InWake? && x.pc.to.FromReparent? && a.pc.ch == x.pc.ch) || a.pc.ch == Ptr(s.init))
    && (Adopts(a.pc) ==>
        a.effect == SetParent(a.pc.t, p) ||
        (Adopts(x.pc) && a.pc.t == x.pc.t && !a.effect.SetParent? && !a.effect.Free?))
  }

  ghost predicate ExitFact(s: State, p: nat, a: Act, z: nat)
    requires p < |s.procs| && z < |s.procs|
  {
    var x := s.procs[p];
    && (PastReparent(a.pc, z) ==>
        PastReparent(x.pc, z) || a.effect == SetParent(z, s.init) || s.procs[z].parent != Some(p))
    && (Passed(a.pc, z) && z != p ==> Passed(x.pc, z) || (WakesAt(x.pc, z) && x.pc.to.FromExit?))
    && (Waking(x.pc, z) && z != p ==> Waking(a.pc, z) || WakesAt(x.pc, z))
  }

  ghost predicate WaitFact(s: State, p: nat, a: Act, z: nat)
    requires p < |s.procs| && z < |s.procs|
  {
    var x := s.procs[p];
    && (Scanned(a.pc, z) ==> Scanned(x.pc, z) || s.procs[z].parent != Some(p) || s.procs[z].state != ZOMBIE)
    && (Committed(OwnStep(x, p, a)) ==> Committed(x) || (Scanned(x.pc, z) && WaitLock(x.pc) && a.effect == Nothing))
  }

  lemma WakeFacts(s: State, p: nat, z: nat)
    requires Running(s, p) && s.procs[p].y == NoYield && s.procs[p].pc.InWake? && z < |s.procs|
    ensures
      var a := NextWake(s, p, s.procs[p].pc);
      PlaceFact(s, p, a) && ParentFact(s, p, a, z) && ExitFact(s, p, a, z) && WaitFact(s, p, a, z)
  {
  }

  lemma ForkFacts(s: State, p: nat, c: Choice, z: nat)
    requires Running(s, p) && s.procs[p].y == NoYield && s.procs[p].pc.InFork? && z < |s.procs|
    ensures
      var a := NextFork(s, p, s.procs[p].pc.t, s.procs[p].pc.fk, c);
      Target(a, |s.procs|) ==>
        PlaceFact(s, p, a) && ParentFact(s, p, a, z) && ExitFact(s, p, a, z) && WaitFact(s, p, a, z)
  {
  }

  lemma WaitFacts(s: State, p: nat, c: Choice, z: nat)
    requires Running(s, p) && s.procs[p].y == NoYield && s.procs[p].pc.InWait? && z < |s.procs|
    ensures
      var a := NextWait(s, p, s.procs[p].pc.w, c);
      PlaceFact(s, p, a) && ParentFact(s, p, a, z) && ExitFact(s, p, a, z) && WaitFact(s, p, a, z)
  {
  }

  lemma ExitFacts(s: State, p: nat, z: nat)
    requires Running(s, p) && s.procs[p].y == NoYield && s.procs[p].pc.InExit?
      && NextExit(s, p, s.procs[p].pc.ex).Some? && z < |s.procs|
    ensures
      var a := NextExit(s, p, s.procs[p].pc.ex).value;
      PlaceFact(s, p, a) && ParentFact(s, p, a, z) && ExitFact(s, p, a, z) && WaitFact(s, p, a, z)
  {
  }

  lemma OtherFacts(s: State, p: nat, c: Choice, z: nat)
    requires Running(s, p) && Next(s, p, c).Some? && z < |s.procs|
    requires
      var x := s.procs[p];
      x.y != NoYield || c.Interrupt? || x.pc.User? || x.pc.ForkRet? || x.pc.InSleep? || x.pc.InKill?
    ensures
      var a := Next(s, p, c).value;
      Target(a, |s.procs|) ==>
        PlaceFact(s, p, a) && ParentFact(s, p, a, z) && ExitFact(s, p, a, z) && WaitFact(s, p, a, z)
  {
  }

  lemma Facts(s: State, p: nat, c: Choice, z: nat)
    requires Running(s, p) && Next(s, p, c).Some? && Target(Next(s, p, c).value, |s.procs|) && z < |s.procs|
    ensures
      var a := Next(s, p, c).value;
      PlaceFact(s, p, a) && ParentFact(s, p, a, z) && ExitFact(s, p, a, z) && WaitFact(s, p, a, z)
  {
    var x := s.procs[p];
    if x.y != NoYield || c.Interrupt? { OtherFacts(s, p, c, z); }
    else if x.pc.InWake? { WakeFacts(s, p, z); }
    else if x.pc.InFork? { ForkFacts(s, p, c, z); }
    else if x.pc.InWait? { WaitFacts(s, p, c, z); }
    else if x.pc.InExit? { ExitFacts(s, p, z); }
    else { OtherFacts(s, p, c, z); }
  }

  // ---- every step keeps the invariant ----

  /** wait_lock has one holder. */
  lemma WaitLockAlone(s: State, e: nat, f: nat)
    requires Structure(s) && e < |s.procs| && f < |s.procs| && WaitLock(s.procs[e].pc) && WaitLock(s.procs[f].pc)
    ensures e == f && s.procs[e].on.Some? && s.wlock == s.procs[e].on
  {
    assert ProcInv(s, e) && ProcInv(s, f);
    assert WaitOk(s, s.procs[e].on.value) && WaitOk(s, s.procs[f].on.value);
  }

  /** An action of p in a state with the invariant. */
  ghost predicate Doing(s: State, c: nat, p: nat, a: Act) {
    && Inv(s) && Acting(s, c, p, a)
    && (forall q :: 0 <= q < |s.procs| ==> ParentFact(s, p, a, q))
    && (forall z :: 0 <= z < |s.procs| ==> ExitFact(s, p, a, z))
    && (forall z :: 0 <= z < |s.procs| ==> WaitFact(s, p, a, z))
  }

  /** Only p itself can go to sleep in wait. */
  lemma CommittedOther(s: State, c: nat, p: nat, a: Act, q: nat)
    requires Acting(s, c, p, a) && q < |s.procs| && q != p
    ensures Committed(OtherStep(s.procs[q], q, a.effect)) ==> Committed(s.procs[q])
    ensures
      var x' := OtherStep(s.procs[q], q, a.effect);
      x'.pc == s.procs[q].pc || (!x'.pc.InWait? && !x'.pc.InWake? && !x'.pc.InExit? && !x'.pc.InFork?)
  {
  }

  /** A wakeup that comes to a process asleep in wait wakes it. */
  lemma WakesUp(s: State, c: nat, p: nat, choice: Choice, q: nat)
    requires Inv(s) && c < |s.cpus| && p < |s.procs| && s.cpus[c].pc == Run(p) && q < |s.procs| && q != p
    requires WakesAt(s.procs[p].pc, q) && s.procs[p].pc.ch == Ptr(q) && Next(s, p, choice).Some?
    ensures !Committed(OtherStep(s.procs[q], q, Next(s, p, choice).value.effect))
  {
    assert CpuOk(s, c) && ProcInv(s, p) && ProcInv(s, q) && LockOk(s, c, q);
    if Committed(s.procs[q]) {
      if s.procs[q].on.Some? {
        var d := s.procs[q].on.value;
        assert LockOk(s, d, q);
        if WaitLock(s.procs[q].pc) { WaitLockAlone(s, p, q); }
      }
    }
  }

  /** Nobody but the parent itself or the holder of wait_lock changes who the parent is. */
  lemma ParentStays(s: State, c: nat, p: nat, a: Act, z: nat)
    requires Doing(s, c, p, a) && z < |s.procs|
    ensures
      var s' := ThreadStep(s, c, p, a);
      && |s'.procs| == |s.procs|
      && s'.procs[z].parent == (if a.effect == Free(z) then None
                                else if a.effect.SetParent? && a.effect.q == z then Some(a.effect.parent)
                                else s.procs[z].parent)
  {
    After(s, c, p, a, z);
  }

  /** A child that a fork has adopted stays with it. */
  lemma AdoptedStays(s: State, c: nat, p: nat, a: Act, e: nat, t: nat)
    requires Doing(s, c, p, a) && e < |s.procs| && Adopts(s.procs[e].pc) && t == s.procs[e].pc.t
    requires e == p ==> !a.effect.SetParent? && !a.effect.Free?
    ensures t < |s.procs| && ThreadStep(s, c, p, a).procs[t].parent == Some(e)
  {
    assert Stage(s, e) && ForkOk(s, e) && ForkAlone(s, e, p) && TargetFact(s, p, a, t) && ParentFact(s, p, a, t);
    After(s, c, p, a, t);
  }

  lemma LineageOwn(s: State, c: nat, p: nat, a: Act)
    requires Doing(s, c, p, a)
    ensures
      var s' := ThreadStep(s, c, p, a);
      |s'.procs| == |s.procs| && s'.init == s.init && Lineage(s', p)
  {
    assert Lineage(s, p) && Stage(s, p) && ParentFact(s, p, a, p) && CpuOk(s, c) && ProcInv(s, p) && ForkOk(s, p);
    After(s, c, p, a, p);
  }

  lemma LineageOther(s: State, c: nat, p: nat, a: Act, e: nat)
    requires Doing(s, c, p, a) && e < |s.procs| && e != p
    ensures
      var s' := ThreadStep(s, c, p, a);
      |s'.procs| == |s.procs| && s'.init == s.init && Lineage(s', e)
  {
    assert Lineage(s, e) && Stage(s, p) && TargetFact(s, p, a, e) && ParentFact(s, p, a, e) && ForkOk(s, p);
    After(s, c, p, a, e);
  }

  lemma StageOwn(s: State, c: nat, p: nat, a: Act)
    requires Doing(s, c, p, a) && PlaceFact(s, p, a)
    ensures
      var s' := ThreadStep(s, c, p, a);
      |s'.procs| == |s.procs| && s'.init == s.init && Stage(s', p)
  {
    assert Stage(s, p) && ParentFact(s, p, a, p);
    After(s, c, p, a, p);
    if Adopts(a.pc) {
      if a.effect == SetParent(a.pc.t, p) {
        After(s, c, p, a, a.pc.t);
      } else {
        AdoptedStays(s, c, p, a, p, a.pc.t);
      }
    }
  }

  lemma StageOther(s: State, c: nat, p: nat, a: Act, e: nat)
    requires Doing(s, c, p, a) && e < |s.procs| && e != p
    ensures
      var s' := ThreadStep(s, c, p, a);
      |s'.procs| == |s.procs| && s'.init == s.init && Stage(s', e)
  {
    assert Stage(s, e) && ParentFact(s, p, a, e);
    if WaitLock(s.procs[p].pc) && WaitLock(s.procs[e].pc) { WaitLockAlone(s, p, e); }
    CommittedOther(s, c, p, a, e);
    After(s, c, p, a, e);
    if Adopts(s.procs[e].pc) { AdoptedStays(s, c, p, a, e, s.procs[e].pc.t); }
  }

  // ---- parents and children, step by step ----

  lemma KinFork(s: State, c: nat, p: nat, a: Act, z: nat)
    requires Doing(s, c, p, a) && z < |s.procs| && a.effect == SetParent(z, p) && s.procs[p].pc == InFork(z, Adopting)
    ensures
      var s' := ThreadStep(s, c, p, a);
      |s'.procs| == |s.procs| && Child(s', p, z)
  {
    assert CpuOk(s, c) && ProcInv(s, p) && ForkOk(s, p) && ParentFact(s, p, a, z);
    After(s, c, p, a, p);
  }

  lemma KinReparent(s: State, c: nat, p: nat, a: Act, z: nat)
    requires Doing(s, c, p, a) && z < |s.procs| && a.effect == SetParent(z, s.init)
      && s.procs[p].pc == InExit(Reparent(z))
    ensures
      var s' := ThreadStep(s, c, p, a);
      |s'.procs| == |s.procs| && Child(s', s.init, z)
  {
    var i := s.init;
    var s' := ThreadStep(s, c, p, a);
    assert ParentFact(s, p, a, z) && Lineage(s, i) && Stage(s, p) && Stage(s, i) && Kin(s, p, z);
    After(s, c, p, a, p);
    After(s, c, p, a, i);
    After(s, c, p, a, z);
    assert Waking(s'.procs[p].pc, s'.init);
    if WaitLock(s.procs[i].pc) { WaitLockAlone(s, p, i); }
    if WaitLock(s.procs[z].pc) { WaitLockAlone(s, p, z); }
  }

  /** z stays a child of q. */
  ghost predicate Stays(s: State, c: nat, p: nat, a: Act, q: nat, z: nat) {
    && Doing(s, c, p, a) && q < |s.procs| && z < |s.procs| && s.procs[z].parent == Some(q)
    && a.effect != Free(z) && !(a.effect.SetParent? && a.effect.q == z)
  }

  lemma StaysLive(s: State, c: nat, p: nat, a: Act, q: nat, z: nat)
    requires Stays(s, c, p, a, q, z)
    ensures
      var s' := ThreadStep(s, c, p, a);
      |s'.procs| == |s.procs| && Live(s'.procs[q].state) && !PastReparent(s'.procs[q].pc, z)
  {
    assert Kin(s, q, z) && ExitFact(s, p, a, z) && TargetFact(s, p, a, q) && ParentFact(s, p, a, q) && ForkOk(s, p);
    After(s, c, p, a, q);
    if q != p { CommittedOther(s, c, p, a, q); }
  }

  /** Who is not on the way to sleep in wait stays so, unless it has just looked at all its children. */
  lemma StaysAwake(s: State, c: nat, p: nat, a: Act, q: nat, z: nat)
    requires Stays(s, c, p, a, q, z)
    ensures
      var s' := ThreadStep(s, c, p, a);
      && |s'.procs| == |s.procs|
      && (Committed(s'.procs[q]) ==>
          Committed(s.procs[q]) || (q == p && Scanned(s.procs[p].pc, z) && WaitLock(s.procs[p].pc) &&
                                    a.effect == Nothing))
  {
    assert WaitFact(s, p, a, z);
    After(s, c, p, a, q);
    if q != p { CommittedOther(s, c, p, a, q); }
  }

  lemma PassedOther(s: State, c: nat, p: nat, a: Act, q: nat, z: nat)
    requires Stays(s, c, p, a, q, z) && z != p
    ensures
      var s' := ThreadStep(s, c, p, a);
      |s'.procs| == |s.procs| && (Passed(s'.procs[z].pc, q) ==> !Committed(s'.procs[q]))
  {
    assert Kin(s, q, z);
    After(s, c, p, a, z);
    StaysAwake(s, c, p, a, q, z);
    CommittedOther(s, c, p, a, z);
    if WaitLock(s.procs[p].pc) && WaitLock(s.procs[z].pc) { WaitLockAlone(s, p, z); }
  }

  lemma PassedOwn(s: State, c: nat, p: nat, choice: Choice, a: Act, q: nat)
    requires Stays(s, c, p, a, q, p) && Next(s, p, choice) == Some(a)
    ensures
      var s' := ThreadStep(s, c, p, a);
      |s'.procs| == |s.procs| && (Passed(s'.procs[p].pc, q) ==> !Committed(s'.procs[q]))
  {
    assert Kin(s, q, p) && Stage(s, p) && ExitFact(s, p, a, q);
    After(s, c, p, a, p);
    if WakesAt(s.procs[p].pc, q) && s.procs[p].pc.to.FromExit? {
      After(s, c, p, a, q);
      WakesUp(s, c, p, choice, q);
    } else {
      StaysAwake(s, c, p, a, q, p);
    }
  }

  /** A pending wakeup of the first process stays pending or wakes it. */
  lemma StaysPending(s: State, c: nat, p: nat, choice: Choice, a: Act)
    requires Doing(s, c, p, a) && Next(s, p, choice) == Some(a) && Pending(s)
    ensures
      var s' := ThreadStep(s, c, p, a);
      |s'.procs| == |s.procs| && s'.init == s.init && (Pending(s') || !Committed(s'.procs[s.init]))
  {
    var s' := ThreadStep(s, c, p, a);
    var i := s.init;
    var e :| 0 <= e < |s.procs| && Waking(s.procs[e].pc, i);
    assert Stage(s, e) && ExitFact(s, p, a, i);
    After(s, c, p, a, e);
    After(s, c, p, a, i);
    if e != p {
      WaitLockAlone(s, e, e);
      ThreadOn(s, c, p, a, e);
      assert Waking(s'.procs[e].pc, s'.init);
    } else if WakesAt(s.procs[p].pc, i) {
      WakesUp(s, c, p, choice, i);
    } else {
      assert Waking(s'.procs[e].pc, s'.init);
    }
  }

  lemma StaysZombie(s: State, c: nat, p: nat, choice: Choice, a: Act, q: nat, z: nat)
    requires Stays(s, c, p, a, q, z) && Next(s, p, choice) == Some(a)
    ensures
      var s' := ThreadStep(s, c, p, a);
      && |s'.procs| == |s.procs| && s'.init == s.init
      && (s'.procs[z].state == ZOMBIE ==>
          !Scanned(s'.procs[q].pc, z) && (Committed(s'.procs[q]) ==> q == s.init && Pending(s')))
  {
    var s' := ThreadStep(s, c, p, a);
    assert Kin(s, q, z) && ParentFact(s, p, a, z) && WaitFact(s, p, a, z);
    After(s, c, p, a, z);
    After(s, c, p, a, q);
    StaysAwake(s, c, p, a, q, z);
    if q != p { CommittedOther(s, c, p, a, q); }
    if s'.procs[z].state == ZOMBIE {
      if s.procs[z].state != ZOMBIE {
        if WaitLock(s.procs[q].pc) { WaitLockAlone(s, p, q); }
      } else if Committed(s.procs[q]) {
        StaysPending(s, c, p, choice, a);
      }
    }
  }

  lemma KinThread(s: State, c: nat, p: nat, choice: Choice, a: Act, q: nat, z: nat)
    requires Doing(s, c, p, a) && Next(s, p, choice) == Some(a) && q < |s.procs| && z < |s.procs|
    ensures
      var s' := ThreadStep(s, c, p, a);
      |s'.procs| == |s.procs| && Kin(s', q, z)
  {
    assert ParentFact(s, p, a, z) && Kin(s, q, z);
    ParentStays(s, c, p, a, z);
    if a.effect.SetParent? && a.effect.q == z {
      if q == a.effect.parent {
        if q == p && s.procs[p].pc.InFork? { KinFork(s, c, p, a, z); } else { KinReparent(s, c, p, a, z); }
      }
    } else if s.procs[z].parent == Some(q) && a.effect != Free(z) {
      StaysLive(s, c, p, a, q, z);
      StaysZombie(s, c, p, choice, a, q, z);
      if z == p { PassedOwn(s, c, p, choice, a, q); } else { PassedOther(s, c, p, a, q, z); }
    }
  }

  // ---- the steps of scheduler() ----

  lemma SchedulerPending(s: State, e: Event)
    requires Inv(s) && Enabled(s, e) && !e.Thread? && Pending(s)
    ensures Pending(Step(s, e))
  {
    var f :| 0 <= f < |s.procs| && Waking(s.procs[f].pc, s.init);
    SchedulerProc(s, e, f);
    assert Waking(Step(s, e).procs[f].pc, Step(s, e).init);
  }

  lemma StageScheduler(s: State, e: Event, q: nat)
    requires Inv(s) && Enabled(s, e) && !e.Thread? && q < |s.procs|
    ensures
      var s' := Step(s, e);
      |s'.procs| == |s.procs| && Lineage(s', q) && Stage(s', q)
  {
    assert Lineage(s, q) && Stage(s, q);
    SchedulerProc(s, e, q);
    if Adopts(s.procs[q].pc) { SchedulerProc(s, e, s.procs[q].pc.t); }
  }

  /** What such a step does to a process does not matter to its family. */
  lemma NudgeCalm(s: State, e: Event, r: nat)
    requires Structure(s) && Enabled(s, e) && !e.Thread? && r < |s.procs|
    ensures
      var s' := Step(s, e);
      && |s'.procs| == |s.procs| && s'.init == s.init
      && s'.procs[r].pc == s.procs[r].pc && s'.procs[r].parent == s.procs[r].parent
      && (s'.procs[r].state == ZOMBIE <==> s.procs[r].state == ZOMBIE)
        && (Live(s'.procs[r].state) <==> Live(s.procs[r].state))
      && (Committed(s'.procs[r]) ==> Committed(s.procs[r]))
  {
    AfterNudge(s, e, r);
    NudgeOk(s, e, r);
  }

  lemma KinScheduler(s: State, e: Event, q: nat, z: nat)
    requires Inv(s) && Enabled(s, e) && !e.Thread? && q < |s.procs| && z < |s.procs|
    ensures
      var s' := Step(s, e);
      |s'.procs| == |s.procs| && Kin(s', q, z)
  {
    assert Kin(s, q, z);
    NudgeCalm(s, e, q);
    NudgeCalm(s, e, z);
    if Pending(s) { SchedulerPending(s, e); }
  }

  lemma ThreadInv(s: State, e: Event)
    requires Inv(s) && Enabled(s, e) && e.Thread?
    ensures Inv(Step(s, e))
  {
    var c, p := e.c, s.cpus[e.c].pc.p;
    var a := Next(s, p, e.choice).value;
    var s' := Step(s, e);
    ActingFrom(s, e);
    StepKeeps(s, e);
    forall z | 0 <= z < |s.procs|
      ensures ParentFact(s, p, a, z) && ExitFact(s, p, a, z) && WaitFact(s, p, a, z) && PlaceFact(s, p, a) {
      Facts(s, p, e.choice, z);
    }
    After(s, c, p, a, p);
    forall r | 0 <= r < |s'.procs| ensures Ready(s', r) { ReadyThread(s, c, p, a, r); }
    forall r | 0 <= r < |s'.procs| ensures Lineage(s', r) {
      if r == p { LineageOwn(s, c, p, a); } else { LineageOther(s, c, p, a, r); }
    }
    forall r | 0 <= r < |s'.procs| ensures Stage(s', r) {
      assert PlaceFact(s, p, a) by { Facts(s, p, e.choice, p); }
      if r == p { StageOwn(s, c, p, a); } else { StageOther(s, c, p, a, r); }
    }
    forall q, z | 0 <= q < |s'.procs| && 0 <= z < |s'.procs| ensures Kin(s', q, z) {
      KinThread(s, c, p, e.choice, a, q, z);
    }
  }

  lemma SchedulerInv(s: State, e: Event)
    requires Inv(s) && Enabled(s, e) && !e.Thread?
    ensures Inv(Step(s, e))
  {
    var s' := Step(s, e);
    StepKeeps(s, e);
    forall r | 0 <= r < |s'.procs| ensures Ready(s', r) { assert Ready(s, r); ReadyScheduler(s, e, r); }
    forall r | 0 <= r < |s'.procs| ensures Lineage(s', r) && Stage(s', r) { StageScheduler(s, e, r); }
    forall q, z | 0 <= q < |s'.procs| && 0 <= z < |s'.procs| ensures Kin(s', q, z) { KinScheduler(s, e, q, z); }
  }

  lemma {:induction false} RunInv(s: State, es: seq<Event>)
    requires Inv(s) && Runs(s, es)
    ensures Inv(Final(s, es))
    decreases |es|
  {
    if es != [] {
      if es[0].Thread? { ThreadInv(s, es[0]); } else { SchedulerInv(s, es[0]); }
      RunInv(Step(s, es[0]), es[1..]);
    }
  }

  lemma InitInv(s: State)
    requires Init(s)
    ensures Inv(s)
  {
    InitStructure(s);
    forall p | 0 <= p < |s.procs| ensures Ready(s, p) && Lineage(s, p) && Stage(s, p) { }
    forall q, z | 0 <= q < |s.procs| && 0 <= z < |s.procs| ensures Kin(s, q, z) { }
  }

  // ---- what holds in every run ----

  /** A RUNNABLE process is in the ready heap, or in the hands of a scheduler that is about to run it. */
  lemma NothingRunnableLost(s: State, es: seq<Event>, p: nat)
    requires Init(s) && Runs(s, es) && p < |Final(s, es).procs|
    ensures
      var t := Final(s, es);
      t.procs[p].state == RUNNABLE ==> p in t.heap || exists c :: Fetched(t, c, p)
  {
    InitInv(s);
    RunInv(s, es);
    assert Ready(Final(s, es), p);
  }

  /** Every process in use but the first has a parent other than itself, and a parent is never a zombie or unused. */
  lemma NoOrphans(s: State, es: seq<Event>, z: nat)
    requires Init(s) && Runs(s, es) && z < |Final(s, es).procs|
    ensures
      var t := Final(s, es);
      var x := t.procs[z];
      && ((Live(x.state) || x.state == ZOMBIE) && z != t.init ==> x.parent.Some?)
      && (x.parent.Some? ==> x.parent.value < |t.procs| && x.parent.value != z && Live(t.procs[x.parent.value].state))
  {
    InitInv(s);
    RunInv(s, es);
    var t := Final(s, es);
    assert Lineage(t, z);
    if t.procs[z].parent.Some? { assert Kin(t, t.procs[z].parent.value, z); }
  }

  /** Nobody sleeps in wait with a zombie child once wait_lock is free: no exit goes unnoticed. */
  lemma NoLostChild(s: State, es: seq<Event>, q: nat, z: nat)
    requires Init(s) && Runs(s, es) && q < |Final(s, es).procs| && z < |Final(s, es).procs|
    requires
      var t := Final(s, es);
      t.procs[z].parent == Some(q) && t.procs[q].state == SLEEPING && t.procs[q].pc.InWait?
    ensures
      var t := Final(s, es);
      t.procs[z].state == ZOMBIE ==> t.wlock.Some? && q == t.init
  {
    InitInv(s);
    RunInv(s, es);
    var t := Final(s, es);
    assert Kin(t, q, z) && ProcInv(t, q);
    if t.procs[z].state == ZOMBIE {
      assert Pending(t);
      var e :| 0 <= e < |t.procs| && Waking(t.procs[e].pc, t.init);
      WaitLockAlone(t, e, e);
    }
  }

  // ---- no deadlock on the locks ----

  /** Where the spinning of CPU c ends: it can go on, or waits for a CPU that can, or for one that waits for such. */
  ghost predicate GoesOn(t: State, c: nat) {
    Steps(t, c) || WaitsForStep(t, c) || exists d :: WaitsFor(t, c, d) && WaitsForStep(t, d)
  }

  lemma Parents(t: State)
    requires Inv(t)
    ensures forall p :: 0 <= p < |t.procs| && t.procs[p].pc.InExit? ==> t.procs[p].parent.Some?
  {
    forall p | 0 <= p < |t.procs| && t.procs[p].pc.InExit? ensures t.procs[p].parent.Some? {
      assert Lineage(t, p) && Stage(t, p) && ProcInv(t, p);
    }
  }

  /** CPU c wants the lock of process q: it can have it, or its holder can go on. */
  lemma WantsLock(t: State, c: nat, q: nat)
    requires Structure(t) && c < |t.cpus| && Wants(t, c) == Acquire(q) && q < |t.plock| && |t.heap| < |t.procs|
    requires forall p :: 0 <= p < |t.procs| && t.procs[p].pc.InExit? ==> t.procs[p].parent.Some?
    ensures t.plock[q] == None || WaitsForStep(t, c)
  {
    if t.plock[q].Some? {
      assert HolderOk(t, t.plock[q]);
      HolderSteps(t, t.plock[q].value, q);
      assert WaitsFor(t, c, t.plock[q].value);
    }
  }

  /**
   No deadlock: in every run, every CPU that is not idle with an empty heap can go on, or
   the spinning for the lock that it wants ends, after two holders at most, at one that
   can, as long as a heap entry fits.
   */
  lemma Progress(s: State, es: seq<Event>, c: nat)
    requires Init(s) && Runs(s, es)
    requires
      var t := Final(s, es);
      c < |t.cpus| && (t.cpus[c].pc.Idle? && t.cpus[c].irq == NoIrq ==> |t.heap| > 0) && |t.heap| < |t.procs|
    ensures GoesOn(Final(s, es), c)
  {
    InitInv(s);
    RunInv(s, es);
    var t := Final(s, es);
    assert CpuOk(t, c);
    Parents(t);
    if t.cpus[c].irq.Handler? {
      HandlerSteps(t, c);
    } else {
      match t.cpus[c].pc
      case Idle => var p :| p in t.heap; assert Enabled(t, Get(c, p));
      case InHand(p) =>
        WantsLock(t, c, p);
        assert t.plock[p] == None ==> Enabled(t, Take(c));
      case Test(p) => assert Enabled(t, Decide(c));
      case Back(p) => assert Enabled(t, PutBack(c));
      case Clear(p) => assert Enabled(t, ClearCur(c));
      case Release(p) => assert Enabled(t, LetGo(c));
      case Run(p) => ThreadSteps(t, c, p);
    }
  }

  lemma HandlerSteps(t: State, c: nat)
    requires Structure(t) && c < |t.cpus| && t.cpus[c].irq.Handler? && |t.heap| < |t.procs|
    requires forall p :: 0 <= p < |t.procs| && t.procs[p].pc.InExit? ==> t.procs[p].parent.Some?
    ensures GoesOn(t, c)
  {
    assert IrqOk(t, c);
    var irq := t.cpus[c].irq;
    if Wants(t, c).Acquire? { WantsLock(t, c, irq.j); }
    assert !WaitsForStep(t, c) ==> Enabled(t, IrqStep(c));
  }

  lemma ThreadSteps(t: State, c: nat, p: nat)
    requires Structure(t) && c < |t.cpus| && t.cpus[c].pc == Run(p) && t.cpus[c].irq == NoIrq && |t.heap| < |t.procs|
    requires forall p :: 0 <= p < |t.procs| && t.procs[p].pc.InExit? ==> t.procs[p].parent.Some?
    ensures GoesOn(t, c)
  {
    assert CpuOk(t, c) && ProcInv(t, p) && ForkOk(t, p) && OtherIn(t, p);
    Acts(t, p);
    var a := Next(t, p, Onward(t.procs[p])).value;
    if a.lock.Acquire? { WantsLock(t, c, a.lock.q); }
    if a.lock.AcquireWait? && t.wlock.Some? {
      WaitHolderSteps(t, t.wlock.value);
      assert WaitsFor(t, c, t.wlock.value);
    } else {
      assert !WaitsForStep(t, c) ==> Enabled(t, Thread(c, Onward(t.procs[p])));
    }
  }

  /**
   The lock order: in every run, whoever is waited for and waits itself holds wait_lock
   and waits for the lock of a process, whose holder waits for nobody. So no CPUs wait
   for each other in a circle, also when the heap is full.
   */
  lemma NoCircle(s: State, es: seq<Event>, c: nat, d: nat, b: nat)
    requires Init(s) && Runs(s, es) && WaitsFor(Final(s, es), c, d) && WaitsFor(Final(s, es), d, b)
    ensures
      var t := Final(s, es);
      Wants(t, c) == AcquireWait && Wants(t, d).Acquire? && forall a :: !WaitsFor(t, b, a)
  {
    InitInv(s);
    RunInv(s, es);
    var t := Final(s, es);
    Parents(t);
    if Wants(t, c).Acquire? {
      assert HolderOk(t, t.plock[Wants(t, c).q]);
      HolderSteps(t, d, Wants(t, c).q);
    }
    WaitHolderSteps(t, d);
    assert HolderOk(t, t.plock[Wants(t, d).q]);
    HolderSteps(t, b, Wants(t, d).q);
  }
}
