/**
 Processes, locks and CPUs (kernel/proc.c) as a state machine: every CPU runs
 scheduler() and, between two switches, the kernel thread of one process, which
 yields, sleeps, wakes others, kills, forks, waits and exits. One step is one
 acquire, one release or the code between two of them, and any CPU may take the
 next step. A device or timer interrupt may run wakeup() on top of a thread, or of
 scheduler() itself, wherever interrupts are on. The ready heap is a multiset: put
 adds one entry, get removes one.
 */
module Scheduler {
  import opened Common
  import opened ProcState

  /** A sleep channel: the address of a process, or anything else. */
  datatype Chan = NoChan | Ptr(q: nat) | Other(k: nat)

  /** Where a call of wakeup returns to. */
  datatype Caller = FromUser | FromReparent(i: nat) | FromExit

  // Where the kernel thread of a process is. "@q" says that it holds the lock of
  // process q, "wait_lock" that it holds wait_lock.

  /** sleep() on a channel other than a process. */
  datatype SleepAt =
    | SleepLocked(k: nat)   // @self
    | SleepSet              // @self: state and chan are set
    | SleepResume           // @self: switched back in

  /** wakeup() at slot j. */
  datatype WakeAt =
    | Before                // no slot locked
    | Testing               // @j
    | Tested                // @j

  /** fork() of child t. */
  datatype ForkAt =
    | AllocTest             // @t: allocproc looks at slot t
    | AllocFail             // @t: in use, or freed again
    | Copying               // @t: allocated
    | Copied                // the child's lock is released
    | Adopting              // wait_lock: before np->parent = p
    | Adopted               // wait_lock
    | PutCall               // put(np) is called
    | PutLocked             // @t
    | PutDone               // @t

  datatype WaitAt =
    | Scan(i: nat, kids: bool)   // wait_lock
    | Look(i: nat, kids: bool)   // wait_lock @i
    | Alive(i: nat)              // wait_lock @i: not a zombie
    | Found(i: nat)              // wait_lock @i: freed, or copyout failed
    | Return                     // wait_lock
    | ToSleep                    // wait_lock: sleep(p, &wait_lock)
    | Locked                     // wait_lock @self
    | Unlocked                   // @self
    | Asleep                     // @self: state and chan are set
    | Resume                     // @self: switched back in
    | Again                      // before acquire(&wait_lock)

  datatype ExitAt =
    | Reparent(i: nat)           // wait_lock: reparent() at slot i
    | ExitLock                   // wait_lock
    | ExitLocked                 // wait_lock @self
    | Zombie                     // wait_lock @self: state is set
    | ExitSwitch                 // @self

  datatype Pc =
    | Dead                                                // no thread
    | User                                                // no lock held
    | ForkRet                                             // @self: first run
    | InSleep(sl: SleepAt)
    | InWake(j: nat, ch: Chan, to: Caller, wk: WakeAt)    // with wait_lock unless called from User
    | InKill(t: nat, done: bool)                          // @t
    | InFork(t: nat, fk: ForkAt)
    | InWait(w: WaitAt)
    | InExit(ex: ExitAt)

  /** yield in a timer interrupt, on top of whatever the thread was doing. */
  datatype Yield = NoYield | YieldLocked | YieldPut | YieldResume

  /** on is the CPU that executes the thread. */
  datatype Proc = Proc(state: PState, chan: Chan, parent: Option<nat>, pc: Pc, y: Yield, on: Option<nat>)

  /** Where scheduler() is on a CPU. */
  datatype CpuPc =
    | Idle
    | InHand(p: nat)    // get() returned p
    | Test(p: nat)      // @p: before the state test
    | Run(p: nat)       // the thread of p executes
    | Back(p: nat)      // @p: p has switched back
    | Clear(p: nat)     // @p: c->proc is still set
    | Release(p: nat)   // @p

  /** wakeup(k) called by an interrupt handler, at slot j. */
  datatype Irq = NoIrq | Handler(j: nat, k: nat, wk: WakeAt)

  /** cur is c->proc. */
  datatype Cpu = Cpu(pc: CpuPc, cur: Option<nat>, irq: Irq)

  /** plock and wlock give the CPU that holds each p->lock and wait_lock. */
  datatype State = State(procs: seq<Proc>, cpus: seq<Cpu>, plock: seq<Option<nat>>, wlock: Option<nat>,
                         heap: multiset<nat>, init: nat)

  // ---- which locks a thread holds, by where it is ----

  predicate OwnLock(x: Proc) {
    || x.y != NoYield
    || match x.pc
       case ForkRet => true
       case InSleep(_) => true
       case InWait(w) => w.Locked? || w.Unlocked? || w.Asleep? || w.Resume?
       case InExit(ex) => ex.ExitLocked? || ex.Zombie? || ex.ExitSwitch?
       case _ => false
  }

  function OtherLock(pc: Pc): Option<nat> {
    match pc
    case InWake(j, _, _, wk) => if wk.Before? then None else Some(j)
    case InKill(t, _) => Some(t)
    case InFork(t, fk) =>
      if fk.AllocTest? || fk.AllocFail? || fk.Copying? || fk.PutLocked? || fk.PutDone? then Some(t) else None
    case InWait(w) => if w.Look? || w.Alive? || w.Found? then Some(w.i) else None
    case _ => None
  }

  predicate WaitLock(pc: Pc) {
    match pc
    case InWake(_, _, to, _) => to != FromUser
    case InFork(_, fk) => fk.Adopting? || fk.Adopted?
    case InWait(w) => !w.Unlocked? && !w.Asleep? && !w.Resume? && !w.Again?
    case InExit(ex) => !ex.ExitSwitch?
    case _ => false
  }

  /** Interrupts are on: the thread can be preempted. */
  predicate Preemptible(x: Proc) {
    !OwnLock(x) && OtherLock(x.pc) == None && !WaitLock(x.pc) && !x.pc.Dead?
  }

  // ---- what a thread does next ----

  datatype LockOp = Keep | Acquire(q: nat) | Unlock(q: nat) | AcquireWait | UnlockWait

  datatype Effect =
    | Nothing
    | Put(q: nat)                          // state = RUNNABLE, one more heap entry
    | Sleep(ch: Chan)                      // chan = ch, state = SLEEPING
    | Awake                                // chan = 0
    | Allocate(q: nat)                     // state = USED, context.ra = forkret
    | Free(q: nat)                         // freeproc
    | SetParent(q: nat, parent: nat)
    | Exited                               // state = ZOMBIE
    | Switch                               // sched(): back to the scheduler

  datatype Act = Act(pc: Pc, y: Yield, lock: LockOp, effect: Effect)

  /** What the environment chooses: system calls, interrupts, failures. */
  datatype Choice =
    Go | Interrupt | SleepOn(k: nat) | WakeAll(k: nat) | Kill(t: nat) | Fork(t: nat) | Wait | Exit | Fail

  function Then(to: Caller): Pc {
    match to
    case FromUser => User
    case FromReparent(i) => InExit(Reparent(i + 1))
    case FromExit => InExit(ExitLock)
  }

  function Do(pc: Pc, lock: LockOp, effect: Effect): Act { Act(pc, NoYield, lock, effect) }

  /** The next action of the thread of process p; None if the choice does not fit. */
  function Next(s: State, p: nat, c: Choice): Option<Act>
    requires p < |s.procs|
  {
    var x := s.procs[p];
    if x.y != NoYield then if c.Interrupt? then None else Some(NextYield(x, p))
    else if c.Interrupt? then
      if Preemptible(x) then Some(Act(x.pc, YieldLocked, Acquire(p), Nothing)) else None
    else
      match x.pc
      case Dead => None
      case User => NextCall(s, p, c)
      case ForkRet => Some(Do(User, Unlock(p), Nothing))
      case InSleep(sl) => Some(NextSleep(p, sl))
      case InWake(j, ch, to, wk) => Some(NextWake(s, p, x.pc))
      case InKill(t, done) => Some(NextKill(s, x.pc))
      case InFork(t, fk) => Some(NextFork(s, p, t, fk, c))
      case InWait(w) => Some(NextWait(s, p, w, c))
      case InExit(ex) => NextExit(s, p, ex)
  }

  function NextYield(x: Proc, p: nat): Act
    requires x.y != NoYield
  {
    match x.y
    case YieldLocked => Act(x.pc, YieldPut, Keep, Put(p))
    case YieldPut => Act(x.pc, YieldResume, Keep, Switch)
    case YieldResume => Act(x.pc, NoYield, Unlock(p), Nothing)
  }

  /** What a thread without locks may start. */
  function NextCall(s: State, p: nat, c: Choice): Option<Act> {
    match c
    case SleepOn(k) => Some(Do(InSleep(SleepLocked(k)), Acquire(p), Nothing))
    case WakeAll(k) => Some(Do(InWake(0, Other(k), FromUser, Before), Keep, Nothing))
    case Kill(t) => if t < |s.procs| then Some(Do(InKill(t, false), Acquire(t), Nothing)) else None
    case Fork(t) => if t < |s.procs| then Some(Do(InFork(t, AllocTest), Acquire(t), Nothing)) else None
    case Wait => Some(Do(InWait(Scan(0, false)), AcquireWait, Nothing))
    case Exit => if p != s.init then Some(Do(InExit(Reparent(0)), AcquireWait, Nothing)) else None
    case _ => None
  }

  function NextSleep(p: nat, sl: SleepAt): Act {
    match sl
    case SleepLocked(k) => Do(InSleep(SleepSet), Keep, Sleep(Other(k)))
    case SleepSet => Do(InSleep(SleepResume), Keep, Switch)
    case SleepResume => Do(User, Unlock(p), Awake)
  }

  function NextWake(s: State, p: nat, pc: Pc): Act
    requires pc.InWake?
  {
    match pc.wk
    case Before =>
      if pc.j >= |s.procs| then Do(Then(pc.to), Keep, Nothing)
      else if pc.j == p then Do(pc.(j := pc.j + 1), Keep, Nothing)
      else Do(pc.(wk := Testing), Acquire(pc.j), Nothing)
    case Testing =>
      Do(pc.(wk := Tested), Keep,
         if pc.j < |s.procs| && s.procs[pc.j].state == SLEEPING && s.procs[pc.j].chan == pc.ch then Put(pc.j)
           else Nothing)
    case Tested => Do(pc.(j := pc.j + 1, wk := Before), Unlock(pc.j), Nothing)
  }

  function NextKill(s: State, pc: Pc): Act
    requires pc.InKill?
  {
    if pc.done then Do(User, Unlock(pc.t), Nothing)
    else Do(pc.(done := true), Keep, if pc.t < |s.procs| && s.procs[pc.t].state == SLEEPING then Put(pc.t) else Nothing)
  }

  function NextFork(s: State, p: nat, t: nat, fk: ForkAt, c: Choice): Act {
    match fk
    case AllocTest =>
      if t < |s.procs| && s.procs[t].state == UNUSED then Do(InFork(t, Copying), Keep, Allocate(t))
      else Do(InFork(t, AllocFail), Keep, Nothing)
    case AllocFail => Do(User, Unlock(t), Nothing)
    case Copying =>
      if c.Fail? then Do(InFork(t, AllocFail), Keep, Free(t)) else Do(InFork(t, Copied), Unlock(t), Nothing)
    case Copied => Do(InFork(t, Adopting), AcquireWait, Nothing)
    case Adopting => Do(InFork(t, Adopted), Keep, SetParent(t, p))
    case Adopted => Do(InFork(t, PutCall), UnlockWait, Nothing)
    case PutCall => Do(InFork(t, PutLocked), Acquire(t), Nothing)
    case PutLocked => Do(InFork(t, PutDone), Keep, Put(t))
    case PutDone => Do(User, Unlock(t), Nothing)
  }

  /** Fail is a failing copyout at Look, and p->killed at the end of the scan. */
  function NextWait(s: State, p: nat, w: WaitAt, c: Choice): Act {
    match w
    case Scan(i, kids) =>
      if i >= |s.procs| then Do(InWait(if !kids || c.Fail? then Return else ToSleep), Keep, Nothing)
      else if s.procs[i].parent == Some(p) then Do(InWait(Look(i, kids)), Acquire(i), Nothing)
      else Do(InWait(Scan(i + 1, kids)), Keep, Nothing)
    case Look(i, kids) =>
      if i < |s.procs| && s.procs[i].state ==
        ZOMBIE then Do(InWait(Found(i)), Keep, if c.Fail? then Nothing else Free(i))
      else Do(InWait(Alive(i)), Keep, Nothing)
    case Alive(i) => Do(InWait(Scan(i + 1, true)), Unlock(i), Nothing)
    case Found(i) => Do(InWait(Return), Unlock(i), Nothing)
    case Return => Do(User, UnlockWait, Nothing)
    case ToSleep => Do(InWait(Locked), Acquire(p), Nothing)
    case Locked => Do(InWait(Unlocked), UnlockWait, Nothing)
    case Unlocked => Do(InWait(Asleep), Keep, Sleep(Ptr(p)))
    case Asleep => Do(InWait(Resume), Keep, Switch)
    case Resume => Do(InWait(Again), Unlock(p), Awake)
    case Again => Do(InWait(Scan(0, false)), AcquireWait, Nothing)
  }

  /** At the end of reparent, wakeup(p->parent); a process other than init has a parent. */
  function NextExit(s: State, p: nat, ex: ExitAt): Option<Act>
    requires p < |s.procs|
  {
    match ex
    case Reparent(i) =>
      if i >= |s.procs| then
        if s.procs[p].parent.Some? then Some(Do(InWake(0, Ptr(s.procs[p].parent.value), FromExit, Before), Keep,
                                                Nothing)) else None
      else if s.procs[i].parent == Some(p)
      then Some(Do(InWake(0, Ptr(s.init), FromReparent(i), Before), Keep, SetParent(i, s.init)))
      else Some(Do(InExit(Reparent(i + 1)), Keep, Nothing))
    case ExitLock => Some(Do(InExit(ExitLocked), Acquire(p), Nothing))
    case ExitLocked => Some(Do(InExit(Zombie), Keep, Exited))
    case Zombie => Some(Do(InExit(ExitSwitch), UnlockWait, Nothing))
    case ExitSwitch => Some(Do(Dead, Keep, Switch))
  }

  // ---- the machine ----

  datatype Event =
    | Thread(c: nat, choice: Choice)   // the thread on CPU c
    | Get(c: nat, p: nat)              // get() returns p
    | Take(c: nat)                     // acquire(&p->lock)
    | Decide(c: nat)                   // the state test, and the switch to p
    | PutBack(c: nat)                  // put(c->proc) if it is RUNNABLE
    | ClearCur(c: nat)                 // the CPU has no process again
    | LetGo(c: nat)                    // release(&p->lock)
    | IrqEnter(c: nat, k: nat)         // an interrupt handler calls wakeup(k)
    | IrqStep(c: nat)                  // the next step of that wakeup

  predicate Target(a: Act, n: nat) {
    match a.effect
    case Put(q) => q < n
    case Allocate(q) => q < n
    case Free(q) => q < n
    case SetParent(q, _) => q < n
    case _ => true
  }

  predicate Available(s: State, op: LockOp) {
    match op
    case Acquire(q) => q < |s.plock| && s.plock[q] == None
    case Unlock(q) => q < |s.plock|
    case AcquireWait => s.wlock == None
    case _ => true
  }

  /** Interrupts are on: in scheduler() without a lock, or in a thread that can be preempted. */
  predicate Interruptible(s: State, c: nat)
    requires c < |s.cpus|
  {
    var pc := s.cpus[c].pc;
    pc.Idle? || pc.InHand? || (pc.Run? && pc.p < |s.procs| && Preemptible(s.procs[pc.p]))
  }

  /** The wakeup of an interrupt handler finds a sleeper at its slot. */
  predicate IrqWakes(s: State, irq: Irq) {
    irq.Handler? && irq.wk.Testing? && irq.j < |s.procs| && s.procs[irq.j].state == SLEEPING
      && s.procs[irq.j].chan == Other(irq.k)
  }

  predicate IrqEnabled(s: State, cpu: Cpu) {
    && cpu.irq.Handler?
    && match cpu.irq.wk
       case Before => cpu.irq.j >= |s.procs| || cpu.cur == Some(cpu.irq.j) || Available(s, Acquire(cpu.irq.j))
       case Testing => true
       case Tested => cpu.irq.j < |s.plock|
  }

  /** What may happen next, as long as there is room in the heap. */
  predicate Possible(s: State, e: Event) {
    && e.c < |s.cpus|
    && (e.IrqStep? || s.cpus[e.c].irq == NoIrq)
    && var pc := s.cpus[e.c].pc;
       match e
       case Thread(c, x) =>
         && pc.Run? && pc.p < |s.procs|
         && var a := Next(s, pc.p, x);
            a.Some? && Available(s, a.value.lock) && Target(a.value, |s.procs|)
       case Get(c, p) => pc.Idle? && p in s.heap
       case Take(c) => pc.InHand? && Available(s, Acquire(pc.p))
       case Decide(c) => pc.Test? && pc.p < |s.procs|
       case PutBack(c) => pc.Back? && pc.p < |s.procs|
       case ClearCur(c) => pc.Clear?
       case LetGo(c) => pc.Release? && pc.p < |s.plock|
       case IrqEnter(c, k) => Interruptible(s, c)
       case IrqStep(c) => IrqEnabled(s, s.cpus[c])
  }

  /** The step calls put. */
  predicate Puts(s: State, e: Event)
    requires Possible(s, e)
  {
    match e
    case Thread(c, x) => Next(s, s.cpus[c].pc.p, x).value.effect.Put?
    case PutBack(c) => s.procs[s.cpus[c].pc.p].state == RUNNABLE
    case IrqStep(c) => IrqWakes(s, s.cpus[c].irq)
    case _ => false
  }

  /** A heap entry that put adds must fit: proc_sched.heap has NPROC slots. */
  predicate Enabled(s: State, e: Event) {
    Possible(s, e) && (Puts(s, e) ==> |s.heap| < |s.procs|)
  }

  function LockStep(s: State, c: nat, op: LockOp): State
    requires Available(s, op)
  {
    match op
    case Keep => s
    case Acquire(q) => s.(plock := s.plock[q := Some(c)])
    case Unlock(q) => s.(plock := s.plock[q := None])
    case AcquireWait => s.(wlock := Some(c))
    case UnlockWait => s.(wlock := None)
  }

  function EffectStep(s: State, c: nat, p: nat, e: Effect): State
    requires c < |s.cpus| && p < |s.procs| && Target(Act(User, NoYield, Keep, e), |s.procs|)
  {
    var ps := s.procs;
    match e
    case Nothing => s
    case Put(q) => s.(procs := ps[q := ps[q].(state := RUNNABLE)], heap := s.heap + multiset{q})
    case Sleep(ch) => s.(procs := ps[p := ps[p].(state := SLEEPING, chan := ch)])
    case Awake => s.(procs := ps[p := ps[p].(chan := NoChan)])
    case Allocate(q) => s.(procs := ps[q := ps[q].(state := USED, pc := ForkRet, y := NoYield)])
    case Free(q) => s.(procs := ps[q := Proc(UNUSED, NoChan, None, Dead, NoYield, None)])
    case SetParent(q, r) => s.(procs := ps[q := ps[q].(parent := Some(r))])
    case Exited => s.(procs := ps[p := ps[p].(state := ZOMBIE)])
    case Switch => s.(procs := ps[p := ps[p].(on := None)], cpus := s.cpus[c := s.cpus[c].(pc := Back(p))])
  }

  function ThreadStep(s: State, c: nat, p: nat, a: Act): State
    requires c < |s.cpus| && p < |s.procs| && Available(s, a.lock) && Target(a, |s.procs|)
  {
    var s1 := s.(procs := s.procs[p := s.procs[p].(pc := a.pc, y := a.y)]);
    EffectStep(LockStep(s1, c, a.lock), c, p, a.effect)
  }

  /** One step of an interrupt handler's wakeup: a handler without a process skips no slot. */
  function IrqDo(s: State, c: nat): State
    requires c < |s.cpus| && IrqEnabled(s, s.cpus[c])
  {
    var cpu := s.cpus[c];
    var irq := cpu.irq;
    match irq.wk
    case Before =>
      if irq.j >= |s.procs| then s.(cpus := s.cpus[c := cpu.(irq := NoIrq)])
      else if cpu.cur == Some(irq.j) then s.(cpus := s.cpus[c := cpu.(irq := irq.(j := irq.j + 1))])
      else s.(plock := s.plock[irq.j := Some(c)], cpus := s.cpus[c := cpu.(irq := irq.(wk := Testing))])
    case Testing =>
      var s1 := s.(cpus := s.cpus[c := cpu.(irq := irq.(wk := Tested))]);
      if IrqWakes(s, irq)
      then s1.(procs := s.procs[irq.j := s.procs[irq.j].(state := RUNNABLE)], heap := s.heap + multiset{irq.j})
      else s1
    case Tested => s.(plock := s.plock[irq.j := None], cpus :=
                      s.cpus[c := cpu.(irq := irq.(j := irq.j + 1, wk := Before))])
  }

  function Step(s: State, e: Event): State
    requires Enabled(s, e)
  {
    var cpu := s.cpus[e.c];
    match e
    case Thread(c, x) => ThreadStep(s, c, cpu.pc.p, Next(s, cpu.pc.p, x).value)
    case Get(c, p) => s.(heap := s.heap - multiset{p}, cpus := s.cpus[c := cpu.(pc := InHand(p))])
    case Take(c) => s.(plock := s.plock[cpu.pc.p := Some(c)], cpus := s.cpus[c := cpu.(pc := Test(cpu.pc.p))])
    case Decide(c) =>
      var p := cpu.pc.p;
      if s.procs[p].state == RUNNABLE
      then s.(procs := s.procs[p := s.procs[p].(state := RUNNING, on := Some(c))], cpus :=
              s.cpus[c := cpu.(pc := Run(p), cur := Some(p))])
      else s.(cpus := s.cpus[c := cpu.(pc := Release(p))])
    case PutBack(c) =>
      var p := cpu.pc.p;
      var s1 := s.(cpus := s.cpus[c := cpu.(pc := Clear(p))]);
      if s.procs[p].state == RUNNABLE then s1.(heap := s.heap + multiset{p}) else s1
    case ClearCur(c) => s.(cpus := s.cpus[c := cpu.(pc := Release(cpu.pc.p), cur := None)])
    case LetGo(c) => s.(plock := s.plock[cpu.pc.p := None], cpus := s.cpus[c := cpu.(pc := Idle)])
    case IrqEnter(c, k) => s.(cpus := s.cpus[c := cpu.(irq := Handler(0, k, Before))])
    case IrqStep(c) => IrqDo(s, c)
  }

  // ---- the structural invariant ----

  /** The thread x of process p holds the lock of process q. */
  predicate HoldsLock(x: Proc, p: nat, q: nat) {
    (q == p && OwnLock(x)) || OtherLock(x.pc) == Some(q)
  }

  ghost predicate Held(s: State, c: nat, q: nat)
    requires c < |s.cpus|
  {
    || IrqHolds(s.cpus[c].irq, q)
    || match s.cpus[c].pc
       case Idle => false
       case InHand(_) => false
       case Run(p) => p < |s.procs| && HoldsLock(s.procs[p], p, q)
       case Test(p) => q == p
       case Back(p) => q == p
       case Clear(p) => q == p
       case Release(p) => q == p
  }

  /** An interrupt handler holds the lock of process q. */
  predicate IrqHolds(irq: Irq, q: nat) { irq.Handler? && !irq.wk.Before? && irq.j == q }

  ghost predicate HeldWait(s: State, c: nat)
    requires c < |s.cpus|
  {
    s.cpus[c].pc.Run? && s.cpus[c].pc.p < |s.procs| && WaitLock(s.procs[s.cpus[c].pc.p].pc)
  }

  /** The lock words say exactly what the places of the CPUs say. */
  ghost predicate LockOk(s: State, c: nat, q: nat)
    requires c < |s.cpus| && q < |s.plock|
  {
    Held(s, c, q) <==> s.plock[q] == Some(c)
  }

  ghost predicate WaitOk(s: State, c: nat)
    requires c < |s.cpus|
  {
    HeldWait(s, c) <==> s.wlock == Some(c)
  }

  /** The state of a process whose thread executes, by where it is. */
  function StateAt(x: Proc): PState {
    if x.y == YieldPut then RUNNABLE
    else if x.pc == InSleep(SleepSet) || x.pc == InWait(Asleep) then SLEEPING
    else if x.pc == InExit(Zombie) || x.pc == InExit(ExitSwitch) then ZOMBIE
    else RUNNING
  }

  /** Places where a thread that was switched out goes on, with its lock held. */
  predicate Resumable(x: Proc) {
    x.y == YieldResume || (x.y == NoYield && (x.pc.ForkRet? || x.pc == InSleep(SleepResume) || x.pc == InWait(Resume)))
  }

  /** What holds of one process by itself. */
  predicate ProcOk(x: Proc, p: nat) {
    && (x.y != NoYield ==> Preemptible(x.(y := NoYield)))
    && (if x.on.Some? then x.state == StateAt(x) && !x.pc.Dead?
        else
          match x.state
          case UNUSED => x.pc.Dead? && x.y == NoYield
          case USED => x.pc.ForkRet? && x.y == NoYield
          case RUNNABLE => Resumable(x)
          case SLEEPING => x.y == NoYield && (x.pc == InSleep(SleepResume) || x.pc == InWait(Resume))
          case ZOMBIE => x.pc.Dead? && x.y == NoYield
          case RUNNING => false)
    && (x.state == SLEEPING && (x.pc == InWait(Asleep) || x.pc == InWait(Resume)) ==> x.chan == Ptr(p))
  }

  ghost predicate CpuOk(s: State, c: nat)
    requires c < |s.cpus|
  {
    var cpu := s.cpus[c];
    match cpu.pc
    case Idle => cpu.cur == None
    case InHand(p) => cpu.cur == None && p < |s.procs|
    case Test(p) => cpu.cur == None && p < |s.procs|
    case Run(p) => cpu.cur == Some(p) && p < |s.procs| && s.procs[p].on == Some(c)
    case Back(p) => cpu.cur == Some(p) && p < |s.procs| && s.procs[p].on == None
    case Clear(p) => cpu.cur == Some(p) && p < |s.procs| && s.procs[p].on == None
    case Release(p) => cpu.cur == None && p < |s.procs|
  }

  /** A handler runs only where interrupts are on, and never holds the lock of the process it interrupted. */
  ghost predicate IrqOk(s: State, c: nat)
    requires c < |s.cpus|
  {
    var cpu := s.cpus[c];
    cpu.irq.Handler? ==>
      Interruptible(s, c) && (!cpu.irq.wk.Before? ==> cpu.irq.j < |s.procs| && cpu.pc != Run(cpu.irq.j))
  }

  ghost predicate ProcInv(s: State, p: nat)
    requires p < |s.procs|
  {
    && ProcOk(s.procs[p], p)
    && (s.procs[p].on.Some? ==> s.procs[p].on.value < |s.cpus| && s.cpus[s.procs[p].on.value].pc == Run(p))
  }

  /** The process that a fork has allocated and not yet made runnable. */
  function ForkTarget(pc: Pc): Option<nat> {
    match pc
    case InFork(t, fk) => if fk.AllocTest? || fk.AllocFail? || fk.PutDone? then None else Some(t)
    case _ => None
  }

  predicate ForkOk(s: State, p: nat)
    requires p < |s.procs|
  {
    var t := ForkTarget(s.procs[p].pc);
    t.Some? ==> t.value < |s.procs| && s.procs[t.value].state == USED
  }

  predicate ForkAlone(s: State, p: nat, q: nat)
    requires p < |s.procs| && q < |s.procs|
  {
    p != q && ForkTarget(s.procs[p].pc).Some? ==> ForkTarget(s.procs[q].pc) != ForkTarget(s.procs[p].pc)
  }

  predicate HolderOk(s: State, lock: Option<nat>) { lock.Some? ==> lock.value < |s.cpus| }

  predicate OtherIn(s: State, p: nat)
    requires p < |s.procs|
  {
    var q := OtherLock(s.procs[p].pc);
    q.Some? ==> q.value < |s.procs|
  }

  ghost predicate Structure(s: State) {
    && |s.plock| == |s.procs| > 0 && (forall p :: p in s.heap ==> p < |s.procs|)
    && (forall q :: 0 <= q < |s.plock| ==> HolderOk(s, s.plock[q])) && HolderOk(s, s.wlock)
    && (forall c :: 0 <= c < |s.cpus| ==> CpuOk(s, c))
    && (forall c :: 0 <= c < |s.cpus| ==> IrqOk(s, c))
    && (forall p :: 0 <= p < |s.procs| ==> ProcInv(s, p))
    && (forall c, q :: 0 <= c < |s.cpus| && 0 <= q < |s.plock| ==> LockOk(s, c, q))
    && (forall c :: 0 <= c < |s.cpus| ==> WaitOk(s, c))
    && (forall p :: 0 <= p < |s.procs| ==> OtherIn(s, p))
    && (forall p :: 0 <= p < |s.procs| ==> ForkOk(s, p))
    && (forall p, q :: 0 <= p < |s.procs| && 0 <= q < |s.procs| ==> ForkAlone(s, p, q))
  }

  // ---- facts about the table of actions, one thread at a time ----

  /** The lock operation of an action and the change of place agree. */
  ghost predicate LockFact(x: Proc, p: nat, a: Act, q: nat) {
    var x' := x.(pc := a.pc, y := a.y);
    if a.effect == Switch then a.lock == Keep && (HoldsLock(x, p, q) <==> q == p) && !WaitLock(x.pc) &&
      OtherLock(a.pc) == None
    else
      && (HoldsLock(x', p, q) <==> (HoldsLock(x, p, q) && a.lock != Unlock(q)) || a.lock == Acquire(q))
      && (WaitLock(a.pc) <==> (WaitLock(x.pc) && a.lock != UnlockWait) || a.lock == AcquireWait)
      && (a.lock == Unlock(q) ==> HoldsLock(x, p, q)) && (a.lock == UnlockWait ==> WaitLock(x.pc))
      && (a.lock.Acquire? || a.lock.AcquireWait? ==> !HoldsLock(x, p, q)) && (a.lock.AcquireWait? ==> !WaitLock(x.pc))
  }

  lemma LockYield(x: Proc, p: nat, q: nat)
    requires ProcOk(x, p) && x.y != NoYield
    ensures LockFact(x, p, NextYield(x, p), q)
  {
  }

  lemma LockSleep(x: Proc, p: nat, q: nat)
    requires x.y == NoYield && x.pc.InSleep?
    ensures LockFact(x, p, NextSleep(p, x.pc.sl), q)
  {
  }

  lemma LockWake(s: State, x: Proc, p: nat, q: nat)
    requires x.y == NoYield && x.pc.InWake?
    ensures LockFact(x, p, NextWake(s, p, x.pc), q)
  {
  }

  lemma LockFork(s: State, x: Proc, p: nat, c: Choice, q: nat)
    requires x.y == NoYield && x.pc.InFork?
    ensures LockFact(x, p, NextFork(s, p, x.pc.t, x.pc.fk, c), q)
  {
  }

  lemma LockWait(s: State, x: Proc, p: nat, c: Choice, q: nat)
    requires x.y == NoYield && x.pc.InWait?
    ensures LockFact(x, p, NextWait(s, p, x.pc.w, c), q)
  {
  }

  lemma LockExit(s: State, x: Proc, p: nat, q: nat)
    requires p < |s.procs| && x.y == NoYield && x.pc.InExit? && NextExit(s, p, x.pc.ex).Some?
    ensures LockFact(x, p, NextExit(s, p, x.pc.ex).value, q)
  {
  }

  lemma LockCall(s: State, x: Proc, p: nat, c: Choice, q: nat)
    requires x.y == NoYield && x.pc.User? && NextCall(s, p, c).Some?
    ensures LockFact(x, p, NextCall(s, p, c).value, q)
  {
  }

  lemma LockFacts(s: State, p: nat, c: Choice, q: nat)
    requires p < |s.procs| && ProcOk(s.procs[p], p) && Next(s, p, c).Some?
    ensures LockFact(s.procs[p], p, Next(s, p, c).value, q)
  {
    var x := s.procs[p];
    if x.y != NoYield { LockYield(x, p, q); }
    else if c.Interrupt? { }
    else if x.pc.User? { LockCall(s, x, p, c, q); }
    else if x.pc.InSleep? { LockSleep(x, p, q); }
    else if x.pc.InWake? { LockWake(s, x, p, q); }
    else if x.pc.InFork? { LockFork(s, x, p, c, q); }
    else if x.pc.InWait? { LockWait(s, x, p, c, q); }
    else if x.pc.InExit? { LockExit(s, x, p, q); }
  }

  /** What an action does to its own process. */
  function OwnStep(x: Proc, p: nat, a: Act): Proc {
    var x1 := x.(pc := a.pc, y := a.y);
    match a.effect
    case Put(q) => if q == p then x1.(state := RUNNABLE) else x1
    case Sleep(ch) => x1.(state := SLEEPING, chan := ch)
    case Awake => x1.(chan := NoChan)
    case SetParent(q, r) => if q == p then x1.(parent := Some(r)) else x1
    case Exited => x1.(state := ZOMBIE)
    case Switch => x1.(on := None)
    case _ => x1
  }

  /** What an action does to another process q. */
  function OtherStep(x: Proc, q: nat, e: Effect): Proc {
    match e
    case Put(t) => if t == q then x.(state := RUNNABLE) else x
    case Allocate(t) => if t == q then x.(state := USED, pc := ForkRet, y := NoYield) else x
    case Free(t) => if t == q then Proc(UNUSED, NoChan, None, Dead, NoYield, None) else x
    case SetParent(t, r) => if t == q then x.(parent := Some(r)) else x
    case _ => x
  }

  /** An action keeps its own process in order. */
  ghost predicate OwnFact(x: Proc, p: nat, a: Act) {
    && ProcOk(OwnStep(x, p, a), p)
    && (a.effect == Switch ==> x.state != RUNNING)
  }

  /** An action that changes the state of another process q holds its lock. */
  ghost predicate TargetFact(s: State, p: nat, a: Act, q: nat)
    requires p < |s.procs|
  {
    var x := s.procs[p];
    && (a.effect == Put(q) ==>
          q < |s.procs| && (q == p ||
                            (HoldsLock(x, p, q) && (s.procs[q].state == SLEEPING || ForkTarget(x.pc) == Some(q)))))
    && (a.effect == Allocate(q) ==> q < |s.procs| && q != p && s.procs[q].state == UNUSED && a.pc == InFork(q, Copying))
    && (a.effect == Free(q) ==>
          q < |s.procs| && q != p && HoldsLock(x, p, q) && (s.procs[q].state == ZOMBIE || ForkTarget(x.pc) == Some(q)))
  }

  /** A fork's target is allocated by its first action and left alone until its last. */
  ghost predicate ForkFact(x: Proc, p: nat, a: Act, t: nat) {
    ForkTarget(a.pc) == Some(t) ==>
      || (a.effect == Allocate(t) && ForkTarget(x.pc) == None)
      || (ForkTarget(x.pc) == Some(t) && (a.effect.Put? ==> a.effect.q == p) && !a.effect.Free? && !a.effect.Allocate?)
  }

  ghost predicate Running(s: State, p: nat) {
    p < |s.procs| && s.procs[p].on.Some? && ProcOk(s.procs[p], p) && ForkOk(s, p)
  }

  lemma OwnYield(s: State, p: nat, q: nat)
    requires Running(s, p) && s.procs[p].y != NoYield
    ensures
      var x, a := s.procs[p], NextYield(s.procs[p], p);
      OwnFact(x, p, a) && TargetFact(s, p, a, q) && ForkFact(x, p, a, q)
  {
  }

  lemma OwnSleep(s: State, p: nat, q: nat)
    requires Running(s, p) && s.procs[p].y == NoYield && s.procs[p].pc.InSleep?
    ensures
      var x, a := s.procs[p], NextSleep(p, s.procs[p].pc.sl);
      OwnFact(x, p, a) && TargetFact(s, p, a, q) && ForkFact(x, p, a, q)
  {
  }

  lemma OwnWake(s: State, p: nat, q: nat)
    requires Running(s, p) && s.procs[p].y == NoYield && s.procs[p].pc.InWake?
    ensures
      var x, a := s.procs[p], NextWake(s, p, s.procs[p].pc);
      OwnFact(x, p, a) && TargetFact(s, p, a, q) && ForkFact(x, p, a, q)
  {
  }

  lemma OwnKill(s: State, p: nat, q: nat)
    requires Running(s, p) && s.procs[p].y == NoYield && s.procs[p].pc.InKill?
    ensures
      var x, a := s.procs[p], NextKill(s, s.procs[p].pc);
      OwnFact(x, p, a) && TargetFact(s, p, a, q) && ForkFact(x, p, a, q)
  {
  }

  lemma OwnFork(s: State, p: nat, c: Choice, q: nat)
    requires Running(s, p) && s.procs[p].y == NoYield && s.procs[p].pc.InFork?
    ensures
      var x, a := s.procs[p], NextFork(s, p, s.procs[p].pc.t, s.procs[p].pc.fk, c);
      Target(a, |s.procs|) ==> OwnFact(x, p, a) && TargetFact(s, p, a, q) && ForkFact(x, p, a, q)
  {
  }

  lemma OwnWait(s: State, p: nat, c: Choice, q: nat)
    requires Running(s, p) && s.procs[p].y == NoYield && s.procs[p].pc.InWait?
    ensures
      var x, a := s.procs[p], NextWait(s, p, s.procs[p].pc.w, c);
      OwnFact(x, p, a) && TargetFact(s, p, a, q) && ForkFact(x, p, a, q)
  {
  }

  lemma OwnExit(s: State, p: nat, q: nat)
    requires Running(s, p) && s.procs[p].y == NoYield && s.procs[p].pc.InExit? && NextExit(s, p, s.procs[p].pc.ex).Some?
    ensures
      var x, a := s.procs[p], NextExit(s, p, s.procs[p].pc.ex).value;
      OwnFact(x, p, a) && TargetFact(s, p, a, q) && ForkFact(x, p, a, q)
  {
  }

  lemma OwnFacts(s: State, p: nat, c: Choice, q: nat)
    requires Running(s, p) && Next(s, p, c).Some? && Target(Next(s, p, c).value, |s.procs|)
    ensures
      var x, a := s.procs[p], Next(s, p, c).value;
      OwnFact(x, p, a) && TargetFact(s, p, a, q) && ForkFact(x, p, a, q)
  {
    var x := s.procs[p];
    if x.y != NoYield { OwnYield(s, p, q); }
    else if c.Interrupt? { }
    else if x.pc.InSleep? { OwnSleep(s, p, q); }
    else if x.pc.InWake? { OwnWake(s, p, q); }
    else if x.pc.InKill? { OwnKill(s, p, q); }
    else if x.pc.InFork? { OwnFork(s, p, c, q); }
    else if x.pc.InWait? { OwnWait(s, p, c, q); }
    else if x.pc.InExit? { OwnExit(s, p, q); }
  }

  // ---- every step keeps the structure ----

  /** A locked process that is not RUNNING executes on no CPU but the lock holder's. */
  lemma Idles(s: State, c: nat, q: nat)
    requires Structure(s) && c < |s.cpus| && q < |s.procs| && s.plock[q] == Some(c)
    requires s.cpus[c].pc != Run(q) && s.procs[q].state != RUNNING
    ensures s.procs[q].on == None
  {
    assert ProcInv(s, q);
    assert s.procs[q].on.Some? ==> LockOk(s, s.procs[q].on.value, q);
  }

  /** The processes after an action, one by one. */
  lemma After(s: State, c: nat, p: nat, a: Act, r: nat)
    requires c < |s.cpus| && p < |s.procs| && r < |s.procs| && Available(s, a.lock) && Target(a, |s.procs|)
    requires a.effect != Free(p) && a.effect != Allocate(p)
    ensures
      var s' := ThreadStep(s, c, p, a);
      && |s'.procs| == |s.procs|
      && s'.procs[r] == (if r == p then OwnStep(s.procs[p], p, a) else OtherStep(s.procs[r], r, a.effect))
  {
  }

  /** The thread of p is about to do a on CPU c. */
  ghost predicate Acting(s: State, c: nat, p: nat, a: Act) {
    && Structure(s) && c < |s.cpus| && p < |s.procs| && s.cpus[c].pc == Run(p) && s.cpus[c].irq == NoIrq
    && Available(s, a.lock) && Target(a, |s.procs|) && a.effect != Free(p) && a.effect != Allocate(p)
    && (forall q :: LockFact(s.procs[p], p, a, q))
    && (forall q :: TargetFact(s, p, a, q))
    && (forall t :: ForkFact(s.procs[p], p, a, t))
  }

  lemma ActingFrom(s: State, e: Event)
    requires Structure(s) && Possible(s, e) && e.Thread?
    ensures
      var p := s.cpus[e.c].pc.p;
      var a := Next(s, p, e.choice).value;
      Acting(s, e.c, p, a) && OwnFact(s.procs[p], p, a) && s.procs[p].on == Some(e.c) && Running(s, p)
  {
    var p := s.cpus[e.c].pc.p;
    var a := Next(s, p, e.choice).value;
    assert CpuOk(s, e.c) && ProcInv(s, p) && ForkOk(s, p);
    OwnFacts(s, p, e.choice, p);
    forall q ensures LockFact(s.procs[p], p, a, q) { LockFacts(s, p, e.choice, q); }
    forall q ensures TargetFact(s, p, a, q) && ForkFact(s.procs[p], p, a, q) { OwnFacts(s, p, e.choice, q); }
    assert TargetFact(s, p, a, p);
  }

  /** Whose state an action changes does not execute. */
  lemma TargetIdles(s: State, c: nat, p: nat, a: Act, q: nat)
    requires Acting(s, c, p, a) && q < |s.procs| && q != p
    requires a.effect == Put(q) || a.effect == Free(q) || a.effect == Allocate(q)
    ensures s.procs[q].on == None && ProcOk(s.procs[q], q)
  {
    assert TargetFact(s, p, a, q) && ProcInv(s, q) && LockOk(s, c, q) && ForkOk(s, p);
    if !a.effect.Allocate? { Idles(s, c, q); }
  }

  lemma ThreadOn(s: State, c: nat, p: nat, a: Act, r: nat)
    requires Acting(s, c, p, a) && r < |s.procs|
    ensures
      var s' := ThreadStep(s, c, p, a);
      && |s'.procs| == |s.procs|
      && s'.procs[r].on == (if r == p && a.effect == Switch then None else s.procs[r].on)
      && (s.procs[r].on.Some? && r != p ==> s'.procs[r].pc == s.procs[r].pc && s'.procs[r].y == s.procs[r].y)
  {
    After(s, c, p, a, r);
    if r != p && (a.effect == Put(r) || a.effect == Free(r) || a.effect == Allocate(r)) {
      TargetIdles(s, c, p, a, r);
    }
  }

  lemma OtherOk(s: State, c: nat, p: nat, a: Act, r: nat)
    requires Acting(s, c, p, a) && r < |s.procs| && r != p
    ensures ProcOk(OtherStep(s.procs[r], r, a.effect), r)
  {
    assert TargetFact(s, p, a, r) && ProcInv(s, r) && ForkOk(s, p);
    if a.effect == Put(r) || a.effect == Free(r) || a.effect == Allocate(r) {
      TargetIdles(s, c, p, a, r);
    }
  }

  lemma ThreadProc(s: State, c: nat, p: nat, a: Act, r: nat)
    requires Acting(s, c, p, a) && r < |s.procs| && ProcOk(OwnStep(s.procs[p], p, a), p)
    ensures
      var s' := ThreadStep(s, c, p, a);
      |s'.procs| == |s.procs| && ProcInv(s', r)
  {
    assert CpuOk(s, c) && ProcInv(s, r);
    After(s, c, p, a, r);
    ThreadOn(s, c, p, a, r);
    if r != p { OtherOk(s, c, p, a, r); }
  }

  lemma ThreadCpu(s: State, c: nat, p: nat, a: Act, d: nat)
    requires Acting(s, c, p, a) && d < |s.cpus|
    ensures
      var s' := ThreadStep(s, c, p, a);
      && |s'.cpus| == |s.cpus| && CpuOk(s', d) && (d != c ==> s'.cpus[d] == s.cpus[d])
      && s'.cpus[c] == (if a.effect == Switch then s.cpus[c].(pc := Back(p)) else s.cpus[c])
  {
    assert CpuOk(s, c) && CpuOk(s, d);
    var pc := s.cpus[d].pc;
    if !pc.Idle? {
      ThreadOn(s, c, p, a, pc.p);
    }
  }

  lemma ThreadIrq(s: State, c: nat, p: nat, a: Act, d: nat)
    requires Acting(s, c, p, a) && d < |s.cpus|
    ensures
      var s' := ThreadStep(s, c, p, a);
      |s'.cpus| == |s.cpus| && IrqOk(s', d)
  {
    assert CpuOk(s, c) && CpuOk(s, d) && IrqOk(s, d);
    ThreadCpu(s, c, p, a, d);
    if s.cpus[d].pc.Run? { ThreadOn(s, c, p, a, s.cpus[d].pc.p); }
  }

  lemma ThreadPlock(s: State, c: nat, p: nat, a: Act, q: nat)
    requires c < |s.cpus| && p < |s.procs| && q < |s.plock| && Available(s, a.lock) && Target(a, |s.procs|)
    ensures
      var s' := ThreadStep(s, c, p, a);
      && |s'.plock| == |s.plock|
      && s'.plock[q] == (if a.lock == Acquire(q) then Some(c) else if a.lock == Unlock(q) then None else s.plock[q])
      && s'.wlock == (if a.lock == AcquireWait then Some(c) else if a.lock == UnlockWait then None else s.wlock)
  {
  }

  /** The places of p before and after an action without a switch. */
  lemma HeldOwn(s: State, c: nat, p: nat, a: Act, q: nat)
    requires Acting(s, c, p, a) && q < |s.plock| && a.effect != Switch
    ensures
      var s' := ThreadStep(s, c, p, a);
      && |s'.cpus| == |s.cpus| && |s'.procs| == |s.procs|
      && (Held(s, c, q) <==> HoldsLock(s.procs[p], p, q))
      && (Held(s', c, q) <==> HoldsLock(s.procs[p].(pc := a.pc, y := a.y), p, q))
  {
    After(s, c, p, a, p);
  }

  lemma ThreadLockOwn(s: State, c: nat, p: nat, a: Act, q: nat)
    requires Acting(s, c, p, a) && q < |s.plock|
    ensures
      var s' := ThreadStep(s, c, p, a);
      |s'.cpus| == |s.cpus| && |s'.plock| == |s.plock| && LockOk(s', c, q)
  {
    assert LockOk(s, c, q) && LockFact(s.procs[p], p, a, q);
    ThreadPlock(s, c, p, a, q);
    if a.effect != Switch { HeldOwn(s, c, p, a, q); }
  }

  lemma ThreadLock(s: State, c: nat, p: nat, a: Act, d: nat, q: nat)
    requires Acting(s, c, p, a) && d < |s.cpus| && q < |s.plock| && d != c
    ensures
      var s' := ThreadStep(s, c, p, a);
      |s'.cpus| == |s.cpus| && |s'.plock| == |s.plock| && LockOk(s', d, q)
  {
    assert CpuOk(s, c) && CpuOk(s, d) && LockOk(s, c, q) && LockOk(s, d, q) && LockFact(s.procs[p], p, a, q);
    ThreadPlock(s, c, p, a, q);
    ThreadCpu(s, c, p, a, d);
    if s.cpus[d].pc.Run? {
      ThreadOn(s, c, p, a, s.cpus[d].pc.p);
    }
  }

  lemma ThreadWait(s: State, c: nat, p: nat, a: Act, d: nat)
    requires Acting(s, c, p, a) && d < |s.cpus|
    ensures
      var s' := ThreadStep(s, c, p, a);
      |s'.cpus| == |s.cpus| && WaitOk(s', d)
  {
    assert CpuOk(s, c) && CpuOk(s, d) && WaitOk(s, c) && WaitOk(s, d) && LockFact(s.procs[p], p, a, p);
    ThreadPlock(s, c, p, a, p);
    ThreadCpu(s, c, p, a, d);
    After(s, c, p, a, p);
    if d != c && s.cpus[d].pc.Run? {
      ThreadOn(s, c, p, a, s.cpus[d].pc.p);
    }
  }

  lemma ThreadFork(s: State, c: nat, p: nat, a: Act, r: nat)
    requires Acting(s, c, p, a) && r < |s.procs|
    ensures
      var s' := ThreadStep(s, c, p, a);
      |s'.procs| == |s.procs| && ForkOk(s', r)
  {
    assert CpuOk(s, c) && ProcInv(s, p) && ForkOk(s, p) && ForkOk(s, r) && ForkAlone(s, r, p);
    After(s, c, p, a, r);
    var t := ForkTarget(ThreadStep(s, c, p, a).procs[r].pc);
    if t.Some? {
      assert ForkFact(s.procs[p], p, a, t.value) && TargetFact(s, p, a, t.value);
      After(s, c, p, a, t.value);
    }
  }

  lemma ThreadOther(s: State, c: nat, p: nat, a: Act, r: nat)
    requires Acting(s, c, p, a) && r < |s.procs|
    ensures
      var s' := ThreadStep(s, c, p, a);
      |s'.procs| == |s.procs| && OtherIn(s', r)
  {
    assert OtherIn(s, r);
    After(s, c, p, a, r);
    var q := OtherLock(a.pc);
    if q.Some? { assert LockFact(s.procs[p], p, a, q.value); }
  }

  lemma ThreadAlone(s: State, c: nat, p: nat, a: Act, r: nat, q: nat)
    requires Acting(s, c, p, a) && r < |s.procs| && q < |s.procs|
    ensures
      var s' := ThreadStep(s, c, p, a);
      |s'.procs| == |s.procs| && ForkAlone(s', r, q)
  {
    assert ForkOk(s, r) && ForkOk(s, q) && ForkAlone(s, r, q);
    After(s, c, p, a, r);
    After(s, c, p, a, q);
    var t := ForkTarget(a.pc);
    if t.Some? {
      assert ForkFact(s.procs[p], p, a, t.value) && TargetFact(s, p, a, t.value);
    }
  }

  lemma ThreadCpus(s: State, c: nat, p: nat, a: Act, s': State)
    requires Acting(s, c, p, a) && s' == ThreadStep(s, c, p, a)
    ensures forall d :: 0 <= d < |s'.cpus| ==> CpuOk(s', d)
    ensures forall d :: 0 <= d < |s'.cpus| ==> IrqOk(s', d)
    ensures forall d :: 0 <= d < |s'.cpus| ==> WaitOk(s', d)
    ensures forall d, q :: 0 <= d < |s'.cpus| && 0 <= q < |s'.plock| ==> LockOk(s', d, q)
  {
    forall d | 0 <= d < |s'.cpus| ensures CpuOk(s', d) { ThreadCpu(s, c, p, a, d); }
    forall d | 0 <= d < |s'.cpus| ensures IrqOk(s', d) { ThreadIrq(s, c, p, a, d); }
    forall d | 0 <= d < |s'.cpus| ensures WaitOk(s', d) { ThreadWait(s, c, p, a, d); }
    forall d, q | 0 <= d < |s'.cpus| && 0 <= q < |s'.plock| ensures LockOk(s', d, q) {
      if d == c { ThreadLockOwn(s, c, p, a, q); } else { ThreadLock(s, c, p, a, d, q); }
    }
  }

  lemma ThreadProcs(s: State, c: nat, p: nat, a: Act, s': State)
    requires Acting(s, c, p, a) && ProcOk(OwnStep(s.procs[p], p, a), p) && s' == ThreadStep(s, c, p, a)
    ensures forall r :: 0 <= r < |s'.procs| ==> ProcInv(s', r)
    ensures forall r :: 0 <= r < |s'.procs| ==> OtherIn(s', r)
    ensures forall r :: 0 <= r < |s'.procs| ==> ForkOk(s', r)
    ensures forall r, q :: 0 <= r < |s'.procs| && 0 <= q < |s'.procs| ==> ForkAlone(s', r, q)
  {
    forall r | 0 <= r < |s'.procs| ensures ProcInv(s', r) { ThreadProc(s, c, p, a, r); }
    forall r | 0 <= r < |s'.procs| ensures OtherIn(s', r) { ThreadOther(s, c, p, a, r); }
    forall r | 0 <= r < |s'.procs| ensures ForkOk(s', r) { ThreadFork(s, c, p, a, r); }
    forall r, q | 0 <= r < |s'.procs| && 0 <= q < |s'.procs| ensures ForkAlone(s', r, q) {
      ThreadAlone(s, c, p, a, r, q);
    }
  }

  lemma ThreadLocks(s: State, c: nat, p: nat, a: Act, s': State)
    requires Acting(s, c, p, a) && s' == ThreadStep(s, c, p, a)
    ensures |s'.plock| == |s'.procs| > 0 && (forall q :: q in s'.heap ==> q < |s'.procs|)
    ensures (forall q :: 0 <= q < |s'.plock| ==> HolderOk(s', s'.plock[q])) && HolderOk(s', s'.wlock)
  {
    forall q | 0 <= q < |s'.plock| ensures HolderOk(s', s'.plock[q]) { ThreadPlock(s, c, p, a, q); }
    ThreadPlock(s, c, p, a, p);
  }

  lemma ThreadKeeps(s: State, c: nat, p: nat, a: Act)
    requires Acting(s, c, p, a) && ProcOk(OwnStep(s.procs[p], p, a), p)
    ensures Structure(ThreadStep(s, c, p, a))
  {
    var s' := ThreadStep(s, c, p, a);
    ThreadLocks(s, c, p, a, s');
    ThreadCpus(s, c, p, a, s');
    ThreadProcs(s, c, p, a, s');
  }

  // ---- the steps of scheduler() and of interrupt handlers ----

  /** What such a step may do to a process: scheduler() starts a RUNNABLE one, a handler wakes a SLEEPING one. */
  ghost predicate Nudged(x: Proc, x': Proc) {
    || x' == x
    || (x.on == None && x.state == RUNNABLE && x'.on.Some? && x' == x.(state := RUNNING, on := x'.on))
    || (x.on == None && x.state == SLEEPING && x' == x.(state := RUNNABLE))
  }

  /** A handler that wakes a process holds its lock, and the process does not execute. */
  lemma IrqTarget(s: State, c: nat)
    requires Structure(s) && c < |s.cpus| && IrqWakes(s, s.cpus[c].irq)
    ensures s.procs[s.cpus[c].irq.j].on == None
  {
    var j := s.cpus[c].irq.j;
    assert IrqOk(s, c) && LockOk(s, c, j);
    Idles(s, c, j);
  }

  lemma DecideTarget(s: State, c: nat)
    requires Structure(s) && c < |s.cpus| && s.cpus[c].pc.Test? && s.cpus[c].pc.p < |s.procs|
      && s.procs[s.cpus[c].pc.p].state == RUNNABLE
    ensures s.procs[s.cpus[c].pc.p].on == None
  {
    assert LockOk(s, c, s.cpus[c].pc.p);
    Idles(s, c, s.cpus[c].pc.p);
  }

  /** The processes after such a step, one by one. */
  function NudgedTo(s: State, e: Event, r: nat): Proc
    requires Enabled(s, e) && r < |s.procs|
  {
    var x := s.procs[r];
    if e.Decide? && s.cpus[e.c].pc.p == r && x.state == RUNNABLE then x.(state := RUNNING, on := Some(e.c))
    else if e.IrqStep? && s.cpus[e.c].irq.j == r && IrqWakes(s, s.cpus[e.c].irq) then x.(state := RUNNABLE)
    else x
  }

  lemma AfterNudge(s: State, e: Event, r: nat)
    requires Enabled(s, e) && !e.Thread? && r < |s.procs|
    ensures
      var s' := Step(s, e);
      |s'.procs| == |s.procs| && |s'.cpus| == |s.cpus| && s'.procs[r] == NudgedTo(s, e, r)
  {
  }

  lemma NudgeOk(s: State, e: Event, r: nat)
    requires Structure(s) && Enabled(s, e) && !e.Thread? && r < |s.procs|
    ensures Nudged(s.procs[r], NudgedTo(s, e, r)) && ProcOk(NudgedTo(s, e, r), r)
  {
    assert ProcInv(s, r) && CpuOk(s, e.c);
    if e.Decide? && s.procs[s.cpus[e.c].pc.p].state == RUNNABLE { DecideTarget(s, e.c); }
    if e.IrqStep? && IrqWakes(s, s.cpus[e.c].irq) { IrqTarget(s, e.c); }
  }

  /** Which CPU executes what changes only when scheduler() starts a process. */
  lemma AfterCpus(s: State, e: Event, d: nat)
    requires Enabled(s, e) && !e.Thread? && d < |s.cpus|
    ensures
      var s' := Step(s, e);
      && |s'.cpus| == |s.cpus| && (d != e.c ==> s'.cpus[d] == s.cpus[d])
      && (d == e.c && s.cpus[d].pc.Run? ==> s'.cpus[d].pc == s.cpus[d].pc)
      && (e.Decide? && s.procs[s.cpus[e.c].pc.p].state == RUNNABLE ==> s'.cpus[e.c].pc == Run(s.cpus[e.c].pc.p))
  {
  }

  lemma SchedulerProc(s: State, e: Event, r: nat)
    requires Structure(s) && Enabled(s, e) && !e.Thread? && r < |s.procs|
    ensures
      var s' := Step(s, e);
      |s'.procs| == |s.procs| && |s'.cpus| == |s.cpus| && ProcInv(s', r) && Nudged(s.procs[r], s'.procs[r])
  {
    assert ProcInv(s, r);
    AfterNudge(s, e, r);
    NudgeOk(s, e, r);
    AfterCpus(s, e, e.c);
    if s.procs[r].on.Some? { AfterCpus(s, e, s.procs[r].on.value); }
  }

  /** The CPU that takes the step. */
  lemma SchedulerOwn(s: State, e: Event)
    requires Structure(s) && Enabled(s, e) && !e.Thread?
    ensures
      var s' := Step(s, e);
      |s'.cpus| == |s.cpus| && CpuOk(s', e.c)
  {
    assert CpuOk(s, e.c);
    if e.Decide? && s.procs[s.cpus[e.c].pc.p].state == RUNNABLE { DecideTarget(s, e.c); }
    if !s.cpus[e.c].pc.Idle? { AfterNudge(s, e, s.cpus[e.c].pc.p); NudgeOk(s, e, s.cpus[e.c].pc.p); }
  }

  lemma SchedulerCpu(s: State, e: Event, d: nat)
    requires Structure(s) && Enabled(s, e) && !e.Thread? && d < |s.cpus|
    ensures
      var s' := Step(s, e);
      |s'.cpus| == |s.cpus| && CpuOk(s', d) && (d != e.c ==> s'.cpus[d] == s.cpus[d])
  {
    if d == e.c {
      SchedulerOwn(s, e);
    } else {
      assert CpuOk(s, d);
      AfterCpus(s, e, d);
      if !s.cpus[d].pc.Idle? {
        var p := s.cpus[d].pc.p;
        AfterNudge(s, e, p);
        NudgeOk(s, e, p);
        assert LockOk(s, e.c, p) && LockOk(s, d, p);
      } else {
        AfterNudge(s, e, 0);
      }
    }
  }

  /** Who executes keeps its place. */
  lemma SchedulerStays(s: State, e: Event, d: nat)
    requires Structure(s) && Enabled(s, e) && !e.Thread? && d < |s.cpus| && s.cpus[d].pc.Run?
    ensures
      var s' := Step(s, e);
      && |s'.cpus| == |s.cpus| && |s'.procs| == |s.procs| && s.cpus[d].pc.p < |s.procs|
      && s'.cpus[d].pc == s.cpus[d].pc && s'.procs[s.cpus[d].pc.p] == s.procs[s.cpus[d].pc.p]
  {
    assert CpuOk(s, d);
    AfterNudge(s, e, s.cpus[d].pc.p);
    NudgeOk(s, e, s.cpus[d].pc.p);
    AfterCpus(s, e, d);
  }

  /** The handler of a CPU after such a step. */
  lemma AfterIrq(s: State, e: Event)
    requires Structure(s) && Enabled(s, e) && !e.Thread?
    ensures
      var s' := Step(s, e);
      && |s'.cpus| == |s.cpus| && |s'.procs| == |s.procs|
      && (s'.cpus[e.c].irq.Handler? ==>
            && Interruptible(s, e.c) && s'.cpus[e.c].pc == s.cpus[e.c].pc
            && (!s'.cpus[e.c].irq.wk.Before? ==>
                s'.cpus[e.c].irq.j < |s.procs| && s.cpus[e.c].pc != Run(s'.cpus[e.c].irq.j)))
  {
    assert CpuOk(s, e.c) && IrqOk(s, e.c);
  }

  lemma SchedulerIrq(s: State, e: Event, d: nat)
    requires Structure(s) && Enabled(s, e) && !e.Thread? && d < |s.cpus|
    ensures
      var s' := Step(s, e);
      |s'.cpus| == |s.cpus| && IrqOk(s', d)
  {
    assert IrqOk(s, d);
    AfterCpus(s, e, d);
    AfterIrq(s, e);
    if s.cpus[d].pc.Run? { SchedulerStays(s, e, d); }
    if |s.procs| > 0 { AfterNudge(s, e, 0); }
  }

  lemma SchedulerHeld(s: State, e: Event, d: nat, q: nat)
    requires Structure(s) && Enabled(s, e) && !e.Thread? && d < |s.cpus| && d != e.c
    ensures
      var s' := Step(s, e);
      && |s'.cpus| == |s.cpus|
      && (Held(s', d, q) <==> Held(s, d, q)) && (HeldWait(s', d) <==> HeldWait(s, d))
  {
    assert CpuOk(s, d);
    SchedulerCpu(s, e, d);
    if s.cpus[d].pc.Run? { SchedulerProc(s, e, s.cpus[d].pc.p); }
  }

  /** A thread that was switched out holds its own lock and no other. */
  lemma ResumedHolds(x: Proc, p: nat, q: nat)
    requires ProcOk(x, p) && x.on == None && x.state == RUNNABLE
    ensures (HoldsLock(x, p, q) <==> q == p) && !WaitLock(x.pc)
  {
  }

  lemma DecideLock(s: State, e: Event, q: nat)
    requires Structure(s) && Enabled(s, e) && e.Decide? && q < |s.plock|
    ensures
      var s' := Step(s, e);
      |s'.cpus| == |s.cpus| && |s'.plock| == |s.plock| && LockOk(s', e.c, q) && WaitOk(s', e.c)
  {
    var p := s.cpus[e.c].pc.p;
    assert CpuOk(s, e.c) && LockOk(s, e.c, q) && WaitOk(s, e.c);
    if s.procs[p].state == RUNNABLE {
      assert ProcInv(s, p);
      DecideTarget(s, e.c);
      ResumedHolds(s.procs[p], p, q);
    }
  }

  /** Under a handler the CPU holds no lock but the handler's. */
  lemma IrqLock(s: State, e: Event, q: nat)
    requires Structure(s) && Enabled(s, e) && (e.IrqEnter? || e.IrqStep?) && q < |s.plock|
    ensures
      var s' := Step(s, e);
      |s'.cpus| == |s.cpus| && |s'.plock| == |s.plock| && LockOk(s', e.c, q) && WaitOk(s', e.c)
  {
    assert CpuOk(s, e.c) && IrqOk(s, e.c) && LockOk(s, e.c, q) && WaitOk(s, e.c);
    if s.cpus[e.c].pc.Run? { SchedulerProc(s, e, s.cpus[e.c].pc.p); }
  }

  lemma SchedulerLockOwn(s: State, e: Event, q: nat)
    requires Structure(s) && Enabled(s, e) && !e.Thread? && q < |s.plock|
    ensures
      var s' := Step(s, e);
      |s'.cpus| == |s.cpus| && |s'.plock| == |s.plock| && LockOk(s', e.c, q) && WaitOk(s', e.c)
  {
    if e.Decide? {
      DecideLock(s, e, q);
    } else if e.IrqEnter? || e.IrqStep? {
      IrqLock(s, e, q);
    } else {
      assert LockOk(s, e.c, q) && WaitOk(s, e.c);
    }
  }

  lemma SchedulerLock(s: State, e: Event, d: nat, q: nat)
    requires Structure(s) && Enabled(s, e) && !e.Thread? && d < |s.cpus| && q < |s.plock| && d != e.c
    ensures
      var s' := Step(s, e);
      |s'.cpus| == |s.cpus| && |s'.plock| == |s.plock| && LockOk(s', d, q) && WaitOk(s', d)
  {
    assert LockOk(s, d, q) && LockOk(s, e.c, q) && WaitOk(s, d);
    SchedulerHeld(s, e, d, q);
  }

  lemma SchedulerCpus(s: State, e: Event, s': State)
    requires Structure(s) && Enabled(s, e) && !e.Thread? && s' == Step(s, e)
    ensures forall d :: 0 <= d < |s'.cpus| ==> CpuOk(s', d)
    ensures forall d :: 0 <= d < |s'.cpus| ==> IrqOk(s', d)
    ensures forall d :: 0 <= d < |s'.cpus| ==> WaitOk(s', d)
    ensures forall d, q :: 0 <= d < |s'.cpus| && 0 <= q < |s'.plock| ==> LockOk(s', d, q)
  {
    forall d | 0 <= d < |s'.cpus| ensures CpuOk(s', d) { SchedulerCpu(s, e, d); }
    forall d | 0 <= d < |s'.cpus| ensures IrqOk(s', d) { SchedulerIrq(s, e, d); }
    forall d, q | 0 <= d < |s'.cpus| && 0 <= q < |s'.plock| ensures LockOk(s', d, q) {
      if d == e.c { SchedulerLockOwn(s, e, q); } else { SchedulerLock(s, e, d, q); }
    }
    forall d | 0 <= d < |s'.cpus| ensures WaitOk(s', d) {
      if d == e.c { SchedulerLockOwn(s, e, 0); } else { SchedulerLock(s, e, d, 0); }
    }
  }

  lemma SchedulerProcs(s: State, e: Event, s': State)
    requires Structure(s) && Enabled(s, e) && !e.Thread? && s' == Step(s, e)
    ensures forall r :: 0 <= r < |s'.procs| ==> ProcInv(s', r)
    ensures forall r :: 0 <= r < |s'.procs| ==> OtherIn(s', r)
    ensures forall r :: 0 <= r < |s'.procs| ==> ForkOk(s', r)
    ensures forall r, q :: 0 <= r < |s'.procs| && 0 <= q < |s'.procs| ==> ForkAlone(s', r, q)
  {
    forall r | 0 <= r < |s'.procs| ensures ProcInv(s', r) { SchedulerProc(s, e, r); }
    forall r | 0 <= r < |s'.procs| ensures OtherIn(s', r) {
      assert OtherIn(s, r);
      SchedulerProc(s, e, r);
    }
    forall r | 0 <= r < |s'.procs| ensures ForkOk(s', r) {
      assert ForkOk(s, r);
      SchedulerProc(s, e, r);
      if ForkTarget(s.procs[r].pc).Some? { SchedulerProc(s, e, ForkTarget(s.procs[r].pc).value); }
    }
    forall r, q | 0 <= r < |s'.procs| && 0 <= q < |s'.procs| ensures ForkAlone(s', r, q) {
      assert ForkAlone(s, r, q);
      SchedulerProc(s, e, r);
      SchedulerProc(s, e, q);
    }
  }

  lemma AfterLocks(s: State, e: Event, q: nat)
    requires Enabled(s, e) && !e.Thread? && q < |s.plock|
    ensures
      var s' := Step(s, e);
      && |s'.plock| == |s.plock| && |s'.cpus| == |s.cpus| && s'.wlock == s.wlock
      && (s'.plock[q] == s.plock[q] || s'.plock[q] == Some(e.c) || s'.plock[q] == None)
  {
  }

  lemma SchedulerHolders(s: State, e: Event, s': State)
    requires Structure(s) && Enabled(s, e) && !e.Thread? && s' == Step(s, e)
    ensures |s'.plock| == |s.plock| && |s'.cpus| == |s.cpus| && HolderOk(s', s'.wlock)
    ensures forall q :: 0 <= q < |s'.plock| ==> HolderOk(s', s'.plock[q])
  {
    AfterLocks(s, e, 0);
    forall q | 0 <= q < |s'.plock| ensures HolderOk(s', s'.plock[q]) {
      assert HolderOk(s, s.plock[q]);
      AfterLocks(s, e, q);
    }
  }

  lemma SchedulerHeap(s: State, e: Event, s': State)
    requires Structure(s) && Enabled(s, e) && !e.Thread? && s' == Step(s, e)
    ensures |s'.procs| == |s.procs| && forall p :: p in s'.heap ==> p < |s'.procs|
  {
  }

  lemma SchedulerKeeps(s: State, e: Event)
    requires Structure(s) && Enabled(s, e) && !e.Thread?
    ensures Structure(Step(s, e))
  {
    SchedulerHolders(s, e, Step(s, e));
    SchedulerHeap(s, e, Step(s, e));
    SchedulerCpus(s, e, Step(s, e));
    SchedulerProcs(s, e, Step(s, e));
  }

  lemma StepKeeps(s: State, e: Event)
    requires Structure(s) && Enabled(s, e)
    ensures Structure(Step(s, e))
  {
    if e.Thread? {
      var p := s.cpus[e.c].pc.p;
      ActingFrom(s, e);
      ThreadKeeps(s, e.c, p, Next(s, p, e.choice).value);
    } else {
      SchedulerKeeps(s, e);
    }
  }

  // ---- whole runs ----

  /** After procinit and userinit: one RUNNABLE process, in the heap, and idle CPUs. */
  ghost predicate Init(s: State) {
    && s.init < |s.procs| == |s.plock| && s.wlock == None && s.heap == multiset{s.init}
    && (forall c :: 0 <= c < |s.cpus| ==> s.cpus[c] == Cpu(Idle, None, NoIrq))
    && (forall p :: 0 <= p < |s.plock| ==> s.plock[p] == None)
    && (forall p :: 0 <= p < |s.procs| ==>
          s.procs[p] == if p == s.init then Proc(RUNNABLE, NoChan, None, ForkRet, NoYield, None)
            else Proc(UNUSED, NoChan, None, Dead, NoYield, None))
  }

  /** The state after userinit, for any number of process slots and CPUs. */
  function Booted(nproc: nat, ncpu: nat): (s: State)
    requires nproc > 0
    ensures Init(s) && |s.procs| == nproc && |s.cpus| == ncpu
  {
    var unused := Proc(UNUSED, NoChan, None, Dead, NoYield, None);
    State(seq(nproc, p => if p == 0 then Proc(RUNNABLE, NoChan, None, ForkRet, NoYield, None) else unused),
          seq(ncpu, _ => Cpu(Idle, None, NoIrq)), seq(nproc, _ => None), None, multiset{0}, 0)
  }

  lemma InitStructure(s: State)
    requires Init(s)
    ensures Structure(s)
  {
    forall p | 0 <= p < |s.procs| ensures ProcInv(s, p) && ForkOk(s, p) && OtherIn(s, p) { }
    forall p, q | 0 <= p < |s.procs| && 0 <= q < |s.procs| ensures ForkAlone(s, p, q) { }
    forall c, q | 0 <= c < |s.cpus| && 0 <= q < |s.plock| ensures LockOk(s, c, q) { }
    forall c | 0 <= c < |s.cpus| ensures WaitOk(s, c) && CpuOk(s, c) && IrqOk(s, c) { }
  }

  /** es is a run from s. */
  ghost predicate Runs(s: State, es: seq<Event>)
    decreases |es|
  {
    es == [] || (Enabled(s, es[0]) && Runs(Step(s, es[0]), es[1..]))
  }

  ghost function Final(s: State, es: seq<Event>): State
    requires Runs(s, es)
    decreases |es|
  {
    if es == [] then s else Final(Step(s, es[0]), es[1..])
  }

  lemma {:induction false} RunKeeps(s: State, es: seq<Event>)
    requires Structure(s) && Runs(s, es)
    ensures Structure(Final(s, es))
    decreases |es|
  {
    if es != [] {
      StepKeeps(s, es[0]);
      RunKeeps(Step(s, es[0]), es[1..]);
    }
  }

  /** No process executes on two CPUs: c->proc tells the CPUs apart, and who executes is RUNNING or on its way out. */
  lemma SingleExecution(s: State, es: seq<Event>, c: nat, d: nat)
    requires Init(s) && Runs(s, es)
    ensures
      var t := Final(s, es);
      c < |t.cpus| && d < |t.cpus| && t.cpus[c].cur.Some? && t.cpus[c].cur == t.cpus[d].cur ==> c == d
  {
    InitStructure(s);
    RunKeeps(s, es);
    var t := Final(s, es);
    if c < |t.cpus| && d < |t.cpus| && t.cpus[c].cur.Some? && t.cpus[c].cur == t.cpus[d].cur {
      var p := t.cpus[c].cur.value;
      assert CpuOk(t, c) && CpuOk(t, d) && LockOk(t, c, p) && LockOk(t, d, p);
    }
  }

  /** The thread that executes on CPU c, when no handler does. */
  predicate Executing(t: State, c: nat) {
    c < |t.cpus| && t.cpus[c].pc.Run? && t.cpus[c].pc.p < |t.procs| && t.cpus[c].irq == NoIrq
  }

  /** The locks that CPU c holds are those of its thread. */
  lemma ThreadHolds(t: State, c: nat, q: nat)
    requires Structure(t) && Executing(t, c) && q < |t.plock|
    ensures
      var p := t.cpus[c].pc.p;
      && (t.plock[q] == Some(c) <==> HoldsLock(t.procs[p], p, q)) && (t.wlock == Some(c) <==> WaitLock(t.procs[p].pc))
      && Running(t, p)
  {
    assert CpuOk(t, c) && LockOk(t, c, q) && WaitOk(t, c) && ProcInv(t, t.cpus[c].pc.p) && ForkOk(t, t.cpus[c].pc.p);
  }

  /** sched() is entered with exactly the lock of the process held, and not RUNNING: its panics cannot happen. */
  lemma SwitchSafe(s: State, es: seq<Event>, c: nat, choice: Choice, q: nat)
    requires Init(s) && Runs(s, es) && Executing(Final(s, es), c) && q < |Final(s, es).plock|
    requires
      var t := Final(s, es);
      var a := Next(t, t.cpus[c].pc.p, choice);
      a.Some? && a.value.effect == Switch
    ensures
      var t := Final(s, es);
      && (t.plock[q] == Some(c) <==> q == t.cpus[c].pc.p) && t.wlock != Some(c)
      && t.procs[t.cpus[c].pc.p].state != RUNNING
  {
    InitStructure(s);
    RunKeeps(s, es);
    var t := Final(s, es);
    ThreadHolds(t, c, q);
    LockFacts(t, t.cpus[c].pc.p, choice, q);
    OwnFacts(t, t.cpus[c].pc.p, choice, q);
  }

  /** acquire() is never called with the lock held, release() only by the holder: their panics cannot happen. */
  lemma LockSafe(s: State, es: seq<Event>, c: nat, choice: Choice, q: nat)
    requires Init(s) && Runs(s, es) && Executing(Final(s, es), c) && q < |Final(s, es).plock|
    requires Next(Final(s, es), Final(s, es).cpus[c].pc.p, choice).Some?
    ensures
      var t := Final(s, es);
      var a := Next(t, t.cpus[c].pc.p, choice).value;
      && (a.lock == Acquire(q) ==> t.plock[q] != Some(c)) && (a.lock == AcquireWait ==> t.wlock != Some(c))
      && (a.lock == Unlock(q) ==> t.plock[q] == Some(c)) && (a.lock == UnlockWait ==> t.wlock == Some(c))
  {
    InitStructure(s);
    RunKeeps(s, es);
    ThreadHolds(Final(s, es), c, q);
    LockFacts(Final(s, es), Final(s, es).cpus[c].pc.p, choice, q);
  }

  /** The same for an interrupt handler: between two slots its CPU holds no lock at all. */
  lemma IrqLockSafe(s: State, es: seq<Event>, c: nat, q: nat)
    requires Init(s) && Runs(s, es) && c < |Final(s, es).cpus| && Final(s, es).cpus[c].irq.Handler?
      && q < |Final(s, es).plock|
    ensures
      var t := Final(s, es);
      (t.plock[q] == Some(c) <==> !t.cpus[c].irq.wk.Before? && q == t.cpus[c].irq.j) && t.wlock != Some(c)
  {
    InitStructure(s);
    RunKeeps(s, es);
    var t := Final(s, es);
    assert CpuOk(t, c) && IrqOk(t, c) && LockOk(t, c, q) && WaitOk(t, c);
  }

  // ---- no deadlock on the locks ----

  /** The choice that fits where the thread x is. */
  function Onward(x: Proc): Choice { if x.y == NoYield && x.pc.User? then Interrupt else Go }

  /** A thread has a next action, and it names locks and processes that exist. */
  lemma Acts(s: State, p: nat)
    requires Running(s, p) && OtherIn(s, p) && (s.procs[p].pc.InExit? ==> s.procs[p].parent.Some?)
    ensures
      var a := Next(s, p, Onward(s.procs[p]));
      && a.Some? && Target(a.value, |s.procs|)
      && (a.value.lock.Acquire? || a.value.lock.Unlock? ==> a.value.lock.q < |s.procs|)
  {
  }

  /** e goes on with what its CPU is at: no new interrupt, unless the thread is outside the kernel. */
  predicate Onwards(s: State, e: Event)
    requires e.c < |s.cpus|
  {
    && !e.IrqEnter?
    && (e.Thread? ==>
      s.cpus[e.c].pc.Run? && s.cpus[e.c].pc.p < |s.procs| && e.choice == Onward(s.procs[s.cpus[e.c].pc.p]))
  }

  /** CPU c can go on with what it is at. */
  ghost predicate Steps(s: State, c: nat) {
    c < |s.cpus| && exists e: Event :: e.c == c && Onwards(s, e) && Enabled(s, e)
  }

  /** What CPU c does to the locks when it goes on. */
  function Wants(s: State, c: nat): LockOp
    requires c < |s.cpus|
  {
    var cpu := s.cpus[c];
    if cpu.irq.Handler? then
      if cpu.irq.wk.Before? && cpu.irq.j < |s.procs| && cpu.cur != Some(cpu.irq.j) then Acquire(cpu.irq.j) else Keep
    else if cpu.pc.InHand? then Acquire(cpu.pc.p)
    else if cpu.pc.Run? && cpu.pc.p < |s.procs| then
      var a := Next(s, cpu.pc.p, Onward(s.procs[cpu.pc.p]));
      if a.Some? then a.value.lock else Keep
    else Keep
  }

  /** CPU c spins for a lock that CPU d holds. */
  predicate WaitsFor(s: State, c: nat, d: nat) {
    && c < |s.cpus|
    && match Wants(s, c)
       case Acquire(q) => q < |s.plock| && s.plock[q] == Some(d)
       case AcquireWait => s.wlock == Some(d)
       case _ => false
  }

  ghost predicate WaitsForStep(s: State, c: nat) { exists d :: WaitsFor(s, c, d) && Steps(s, d) }

  /** A handler that holds a lock waits for none. */
  lemma HolderHandles(s: State, d: nat, q: nat)
    requires Structure(s) && d < |s.cpus| && s.cpus[d].irq.Handler? && q < |s.plock| && s.plock[q] == Some(d)
    ensures Wants(s, d) == Keep && (|s.heap| < |s.procs| ==> Steps(s, d))
  {
    assert CpuOk(s, d) && IrqOk(s, d) && LockOk(s, d, q);
    assert |s.heap| < |s.procs| ==> Enabled(s, IrqStep(d));
  }

  /** CPU d holds the lock of a process: it waits for no lock, so it can go on unless the heap is full. */
  lemma HolderSteps(s: State, d: nat, q: nat)
    requires Structure(s) && d < |s.cpus| && q < |s.plock| && s.plock[q] == Some(d)
    requires forall p :: 0 <= p < |s.procs| && s.procs[p].pc.InExit? ==> s.procs[p].parent.Some?
    ensures (forall b :: !WaitsFor(s, d, b)) && (|s.heap| < |s.procs| ==> Steps(s, d))
  {
    assert CpuOk(s, d) && IrqOk(s, d) && LockOk(s, d, q);
    var room := |s.heap| < |s.procs|;
    if s.cpus[d].irq.Handler? {
      HolderHandles(s, d, q);
      return;
    }
    match s.cpus[d].pc
    case Test(p) => assert room ==> Enabled(s, Decide(d));
    case Back(p) => assert room ==> Enabled(s, PutBack(d));
    case Clear(p) => assert room ==> Enabled(s, ClearCur(d));
    case Release(p) => assert room ==> Enabled(s, LetGo(d));
    case Run(p) =>
      assert ProcInv(s, p) && ForkOk(s, p) && OtherIn(s, p);
      Acts(s, p);
      LockFacts(s, p, Onward(s.procs[p]), q);
      assert room ==> Enabled(s, Thread(d, Onward(s.procs[p])));
    case _ =>
  }

  /** CPU d holds wait_lock: it waits for the lock of a process at most, so it can go on, or its holder can. */
  lemma WaitHolderSteps(s: State, d: nat)
    requires Structure(s) && s.wlock == Some(d)
    requires forall p :: 0 <= p < |s.procs| && s.procs[p].pc.InExit? ==> s.procs[p].parent.Some?
    ensures d < |s.cpus| && !Wants(s, d).AcquireWait?
    ensures |s.heap| < |s.procs| ==> Steps(s, d) || WaitsForStep(s, d)
  {
    assert HolderOk(s, s.wlock) && CpuOk(s, d) && IrqOk(s, d) && WaitOk(s, d);
    var p := s.cpus[d].pc.p;
    assert ProcInv(s, p) && ForkOk(s, p) && OtherIn(s, p);
    Acts(s, p);
    var a := Next(s, p, Onward(s.procs[p])).value;
    LockFacts(s, p, Onward(s.procs[p]), p);
    if a.lock.Acquire? && s.plock[a.lock.q].Some? {
      var b := s.plock[a.lock.q].value;
      assert HolderOk(s, s.plock[a.lock.q]);
      HolderSteps(s, b, a.lock.q);
      assert WaitsFor(s, d, b);
    } else {
      assert |s.heap| < |s.procs| ==> Enabled(s, Thread(d, Onward(s.procs[p])));
    }
  }
}
