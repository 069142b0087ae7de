/**
 The ready heap (kernel/proc.c:485-496, 529-537) has NPROC slots and put does not
 check for room. yield puts the process into the heap and scheduler() puts it in
 once more, so a process that is preempted often enough fills the heap: from every
 initial state there is a run to a put that has no slot left. With u processes in
 use it takes NPROC + 1 - u yields, one more than HeapRoom.RoomForPut allows, for
 every u from 1 to NPROC.
 */
module HeapBound {
  import opened Common
  import opened ProcState
  import opened Scheduler
  import opened HeapRoom

  /** A run with this many yields leads from s to t. */
  ghost predicate Reaches(s: State, t: State, y: nat) {
    exists es :: Runs(s, es) && Final(s, es) == t && Yields(es) == y
  }

  lemma ReachesSelf(s: State)
    ensures Reaches(s, s, 0)
  {
    assert Runs(s, []) && Final(s, []) == s && Yields([]) == 0;
  }

  lemma ReachesFirst(s: State, e: Event, t: State, y: nat)
    requires Enabled(s, e) && Reaches(Step(s, e), t, y)
    ensures Reaches(s, t, IsYield(e) + y)
  {
    var es :| Runs(Step(s, e), es) && Final(Step(s, e), es) == t && Yields(es) == y;
    var fs := [e] + es;
    assert fs[1..] == es;
    assert Runs(s, fs) && Final(s, fs) == t && Yields(fs) == IsYield(e) + y;
  }

  lemma ReachesTwo(s: State, e: Event, f: Event)
    requires Enabled(s, e) && Enabled(Step(s, e), f)
    ensures Reaches(s, Step(Step(s, e), f), IsYield(e) + IsYield(f))
  {
    ReachesSelf(Step(Step(s, e), f));
    ReachesFirst(Step(s, e), f, Step(Step(s, e), f), 0);
    ReachesFirst(s, e, Step(Step(s, e), f), IsYield(f));
  }

  lemma {:induction false} ReachesAppend(s: State, es: seq<Event>, t: State, y: nat)
    requires Runs(s, es) && Reaches(Final(s, es), t, y)
    ensures Reaches(s, t, Yields(es) + y)
    decreases |es|
  {
    if es != [] {
      ReachesAppend(Step(s, es[0]), es[1..], t, y);
      ReachesFirst(s, es[0], t, Yields(es[1..]) + y);
    }
  }

  lemma ReachesTrans(s: State, t: State, u: State, y: nat, z: nat)
    requires Reaches(s, t, y) && Reaches(t, u, z)
    ensures Reaches(s, u, y + z)
  {
    var es :| Runs(s, es) && Final(s, es) == t && Yields(es) == y;
    ReachesAppend(s, es, u, z);
  }

  /** The parts of the state that CPU 0 touches while it runs p, with the processes of us in use. */
  ghost predicate Stand(s: State, p: nat, pc: CpuPc, cur: Option<nat>, lock: Option<nat>, size: nat, us: set<nat>) {
    && |s.cpus| > 0 && p < |s.procs| == |s.plock| && p in us
    && s.cpus[0] == Cpu(pc, cur, NoIrq) && s.plock[p] == lock && s.wlock == None && |s.heap| == size
    && InUse(s) == us && forall r :: 0 <= r < |s.procs| && r !in us ==> s.plock[r] == None
  }

  /** p can go on where it stopped: in forkret, or in yield. */
  predicate Ready(x: Proc) {
    && x.state == RUNNABLE && x.on == None
    && ((x.pc == ForkRet && x.y == NoYield) || (x.pc == User && x.y == YieldResume))
  }

  /** p waits in the heap; CPU 0 is idle. */
  ghost predicate AtRest(s: State, p: nat, size: nat, us: set<nat>) {
    Stand(s, p, Idle, None, None, size, us) && p in s.heap && Ready(s.procs[p])
  }

  ghost predicate Chosen(s: State, p: nat, size: nat, us: set<nat>) {
    Stand(s, p, Test(p), None, Some(0), size, us) && Ready(s.procs[p])
  }

  ghost predicate Executes(s: State, p: nat, size: nat, us: set<nat>) {
    && Stand(s, p, Run(p), Some(p), None, size, us)
    && s.procs[p].state == RUNNING && s.procs[p].pc == User && s.procs[p].y == NoYield
  }

  ghost predicate InYield(s: State, p: nat, size: nat, us: set<nat>) {
    && Stand(s, p, Run(p), Some(p), Some(0), size, us) && p in s.heap
    && s.procs[p].state == RUNNABLE && s.procs[p].pc == User && s.procs[p].y == YieldPut
  }

  /** p has yielded; scheduler() is about to put it into the heap once more. */
  ghost predicate SwitchedBack(s: State, p: nat, size: nat, us: set<nat>) {
    && Stand(s, p, Back(p), Some(p), Some(0), size, us) && p in s.heap
    && Ready(s.procs[p]) && s.procs[p].y == YieldResume
  }

  lemma Choose(s: State, p: nat, size: nat, us: set<nat>) returns (t: State)
    requires AtRest(s, p, size, us)
    ensures Reaches(s, t, 0) && size > 0 && Chosen(t, p, size - 1, us) && |t.procs| == |s.procs|
  {
    ReachesTwo(s, Get(0, p), Take(0));
    t := Step(Step(s, Get(0, p)), Take(0));
  }

  lemma Start(s: State, p: nat, size: nat, us: set<nat>) returns (t: State)
    requires Chosen(s, p, size, us)
    ensures Reaches(s, t, 0) && Executes(t, p, size, us) && |t.procs| == |s.procs|
  {
    ReachesTwo(s, Decide(0), Thread(0, Go));
    t := Step(Step(s, Decide(0)), Thread(0, Go));
  }

  lemma Preempt(s: State, p: nat, size: nat, us: set<nat>) returns (t: State)
    requires Executes(s, p, size, us) && size < |s.procs|
    ensures Reaches(s, t, 1) && InYield(t, p, size + 1, us) && |t.procs| == |s.procs|
  {
    ReachesTwo(s, Thread(0, Interrupt), Thread(0, Go));
    t := Step(Step(s, Thread(0, Interrupt)), Thread(0, Go));
  }

  lemma SwitchBack(s: State, p: nat, size: nat, us: set<nat>) returns (t: State)
    requires InYield(s, p, size, us)
    ensures Reaches(s, t, 0) && SwitchedBack(t, p, size, us) && |t.procs| == |s.procs|
  {
    t := Step(s, Thread(0, Go));
    ReachesSelf(t);
    ReachesFirst(s, Thread(0, Go), t, 0);
  }

  lemma PutAgain(s: State, p: nat, size: nat, us: set<nat>) returns (t: State)
    requires SwitchedBack(s, p, size, us) && size < |s.procs|
    ensures Reaches(s, t, 0) && AtRest(t, p, size + 1, us) && |t.procs| == |s.procs|
  {
    var u := Step(Step(s, PutBack(0)), ClearCur(0));
    ReachesTwo(s, PutBack(0), ClearCur(0));
    t := Step(u, LetGo(0));
    ReachesSelf(t);
    ReachesFirst(u, LetGo(0), t, 0);
    ReachesTrans(s, u, t, 0, 0);
  }

  /** From get to the first instruction outside the kernel. */
  lemma Resumes(s: State, p: nat, size: nat, us: set<nat>) returns (t: State)
    requires AtRest(s, p, size, us)
    ensures Reaches(s, t, 0) && size > 0 && Executes(t, p, size - 1, us) && |t.procs| == |s.procs|
  {
    var u := Choose(s, p, size, us);
    t := Start(u, p, size - 1, us);
    ReachesTrans(s, u, t, 0, 0);
  }

  /** One yield of p, up to the second put. */
  lemma YieldOnce(s: State, p: nat, size: nat, us: set<nat>) returns (t: State)
    requires Executes(s, p, size, us) && size < |s.procs|
    ensures Reaches(s, t, 1) && SwitchedBack(t, p, size + 1, us) && |t.procs| == |s.procs|
  {
    var u := Preempt(s, p, size, us);
    t := SwitchBack(u, p, size + 1, us);
    ReachesTrans(s, u, t, 1, 0);
  }

  /** From the second put to the next turn. */
  lemma RunsAgain(s: State, p: nat, size: nat, us: set<nat>) returns (t: State)
    requires SwitchedBack(s, p, size, us) && size < |s.procs|
    ensures Reaches(s, t, 0) && Executes(t, p, size, us) && |t.procs| == |s.procs|
  {
    var u := PutAgain(s, p, size, us);
    t := Resumes(u, p, size + 1, us);
    ReachesTrans(s, u, t, 0, 0);
  }

  lemma {:induction false} Fills(s: State, p: nat, size: nat, us: set<nat>) returns (t: State)
    requires Executes(s, p, size, us) && size < |s.procs|
    ensures Reaches(s, t, |s.procs| - size) && SwitchedBack(t, p, |t.procs|, us) && |t.procs| == |s.procs|
    decreases |s.procs| - size
  {
    t := YieldOnce(s, p, size, us);
    if size + 1 < |s.procs| {
      var u := RunsAgain(t, p, size + 1, us);
      var v := Fills(u, p, size + 1, us);
      ReachesTrans(s, t, u, 1, 0);
      ReachesTrans(s, u, v, 1, |s.procs| - size - 1);
      t := v;
    }
  }

  // ---- fork ----

  predicate Locks(fk: ForkAt) { fk.AllocTest? || fk.Copying? || fk.PutLocked? || fk.PutDone? }

  predicate Waits(fk: ForkAt) { fk.Adopting? || fk.Adopted? }

  function Child(fk: ForkAt): PState {
    if fk.AllocTest? then UNUSED else if fk.PutDone? then RUNNABLE else USED
  }

  /** p is in fork, with t the slot of the child; size and us are those of before. */
  ghost predicate Forks(s: State, p: nat, t: nat, fk: ForkAt, size: nat, us: set<nat>) {
    && |s.cpus| > 0 && p < |s.procs| == |s.plock| && p in us && t < |s.procs| && t !in us
    && s.cpus[0] == Cpu(Run(p), Some(p), NoIrq) && s.plock[p] == None
    && s.wlock == (if Waits(fk) then Some(0) else None) && s.plock[t] == (if Locks(fk) then Some(0) else None)
    && |s.heap| == (if fk.PutDone? then size + 1 else size)
    && s.procs[p].state == RUNNING && s.procs[p].pc == InFork(t, fk) && s.procs[p].y == NoYield
    && s.procs[t].state == Child(fk) && InUse(s) - {t} == us
    && forall r :: 0 <= r < |s.procs| && r !in us && r != t ==> s.plock[r] == None
  }

  function After(fk: ForkAt): ForkAt {
    match fk
    case AllocTest => Copying
    case Copying => Copied
    case Copied => Adopting
    case Adopting => Adopted
    case Adopted => PutCall
    case PutCall => PutLocked
    case _ => PutDone
  }

  function Left(fk: ForkAt): nat {
    match fk
    case AllocTest => 7
    case Copying => 6
    case Copied => 5
    case Adopting => 4
    case Adopted => 3
    case PutCall => 2
    case PutLocked => 1
    case _ => 0
  }

  /** allocproc and the copying of memory and files. */
  lemma ForkAllocates(s: State, p: nat, t: nat, fk: ForkAt, size: nat, us: set<nat>)
    requires Forks(s, p, t, fk, size, us) && (fk.AllocTest? || fk.Copying?)
    ensures Enabled(s, Thread(0, Go)) && Forks(Step(s, Thread(0, Go)), p, t, After(fk), size, us)
  {
  }

  /** np->parent = p. */
  lemma ForkAdopts(s: State, p: nat, t: nat, fk: ForkAt, size: nat, us: set<nat>)
    requires Forks(s, p, t, fk, size, us) && (fk.Copied? || fk.Adopting? || fk.Adopted?)
    ensures Enabled(s, Thread(0, Go)) && Forks(Step(s, Thread(0, Go)), p, t, After(fk), size, us)
  {
  }

  /** put(np). */
  lemma ForkPuts(s: State, p: nat, t: nat, fk: ForkAt, size: nat, us: set<nat>)
    requires Forks(s, p, t, fk, size, us) && size < |s.procs| && (fk.PutCall? || fk.PutLocked?)
    ensures Enabled(s, Thread(0, Go)) && Forks(Step(s, Thread(0, Go)), p, t, After(fk), size, us)
  {
  }

  lemma ForkNext(s: State, p: nat, t: nat, fk: ForkAt, size: nat, us: set<nat>)
    requires Forks(s, p, t, fk, size, us) && size < |s.procs| && !fk.AllocFail? && !fk.PutDone?
    ensures Enabled(s, Thread(0, Go)) && Forks(Step(s, Thread(0, Go)), p, t, After(fk), size, us)
    ensures |Step(s, Thread(0, Go)).procs| == |s.procs| && IsYield(Thread(0, Go)) == 0
  {
    match fk {
      case AllocTest | Copying => ForkAllocates(s, p, t, fk, size, us);
      case Copied | Adopting | Adopted => ForkAdopts(s, p, t, fk, size, us);
      case PutCall | PutLocked => ForkPuts(s, p, t, fk, size, us);
    }
  }

  lemma ForkDone(s: State, p: nat, t: nat, size: nat, us: set<nat>)
    requires Forks(s, p, t, PutDone, size, us)
    ensures Enabled(s, Thread(0, Go)) && Executes(Step(s, Thread(0, Go)), p, size + 1, us + {t})
  {
  }

  lemma {:induction false} ForkOn(s: State, p: nat, t: nat, fk: ForkAt, size: nat, us: set<nat>) returns (v: State)
    requires Forks(s, p, t, fk, size, us) && size < |s.procs| && !fk.AllocFail?
    ensures Reaches(s, v, 0) && Executes(v, p, size + 1, us + {t}) && |v.procs| == |s.procs|
    decreases Left(fk)
  {
    if fk.PutDone? {
      ForkDone(s, p, t, size, us);
      v := Step(s, Thread(0, Go));
      ReachesSelf(v);
    } else {
      ForkNext(s, p, t, fk, size, us);
      v := ForkOn(Step(s, Thread(0, Go)), p, t, After(fk), size, us);
    }
    ReachesFirst(s, Thread(0, Go), v, 0);
  }

  /** p forks a child into a free slot. */
  lemma ForkChild(s: State, p: nat, t: nat, size: nat, us: set<nat>) returns (v: State)
    requires Executes(s, p, size, us) && size < |s.procs| && t < |s.procs| && t !in us
    ensures Reaches(s, v, 0) && Executes(v, p, size + 1, us + {t}) && |v.procs| == |s.procs|
  {
    var u := Step(s, Thread(0, Fork(t)));
    v := ForkOn(u, p, t, AllocTest, size, us);
    ReachesFirst(s, Thread(0, Fork(t)), v, 0);
  }

  lemma {:induction false} FreeSlot(us: set<nat>, n: nat) returns (t: nat)
    requires |us| < n
    ensures t < n && t !in us
  {
    if n - 1 in us {
      t := FreeSlot(us - {n - 1}, n - 1);
    } else {
      t := n - 1;
    }
  }

  /** p forks until n processes are in use. */
  lemma {:induction false} ForksUpTo(s: State, p: nat, us: set<nat>, n: nat) returns (v: State, vs: set<nat>)
    requires us != {} && Executes(s, p, |us| - 1, us) && |us| <= n <= |s.procs|
    ensures Reaches(s, v, 0) && |vs| == n && Executes(v, p, n - 1, vs) && |v.procs| == |s.procs|
    decreases n - |us|
  {
    if |us| == n {
      v, vs := s, us;
      ReachesSelf(s);
    } else {
      var t := FreeSlot(us, |s.procs|);
      var u := ForkChild(s, p, t, |us| - 1, us);
      v, vs := ForksUpTo(u, p, us + {t}, n);
      ReachesTrans(s, u, v, 0, 0);
    }
  }

  // ---- the overflow ----

  lemma InitRests(s: State)
    requires Init(s) && |s.cpus| > 0
    ensures AtRest(s, s.init, 1, {s.init})
  {
    assert InUse(s) == {s.init};
  }

  /** scheduler() calls put for p, u processes are in use, and the heap is full. */
  ghost predicate NoRoom(t: State, p: nat, u: nat) {
    && |t.cpus| > 0 && t.cpus[0].pc == Back(p) && |t.heap| == |t.procs| && p in InUse(t) && |InUse(t)| == u
    && Possible(t, PutBack(0)) && !Enabled(t, PutBack(0))
  }

  lemma FullHeap(t: State, p: nat, us: set<nat>)
    requires SwitchedBack(t, p, |t.procs|, us)
    ensures NoRoom(t, p, |us|)
  {
    assert Possible(t, PutBack(0)) && Puts(t, PutBack(0));
  }

  /** With u processes in use, NPROC + 1 - u yields make scheduler() call put on a full heap, whatever NPROC is. */
  lemma HeapOverflows(s: State, u: nat)
    requires Init(s) && |s.cpus| > 0 && 1 <= u <= |s.procs|
    ensures exists es :: Runs(s, es) && u + Yields(es) == |s.procs| + 1 && NoRoom(Final(s, es), s.init, u)
  {
    InitRests(s);
    var s1 := Resumes(s, s.init, 1, {s.init});
    var s2, us := ForksUpTo(s1, s.init, {s.init}, u);
    var t := Fills(s2, s.init, u - 1, us);
    ReachesTrans(s, s1, s2, 0, 0);
    ReachesTrans(s, s2, t, 0, |s.procs| - u + 1);
    FullHeap(t, s.init, us);
    var es :| Runs(s, es) && Final(s, es) == t && Yields(es) == |s.procs| - u + 1;
    assert NoRoom(Final(s, es), s.init, u);
  }
}
