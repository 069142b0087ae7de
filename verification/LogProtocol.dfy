/**
 The logging protocol over every interleaving (kernel/log.c): any number of
 processes run begin_op, log_write and end_op, the last end_op commits one disk
 write at a time, and a crash may fall between any two steps, also of recovery.

 The concrete machine refines a machine with two states, durable and current:
 operations change the current state, a commit makes it durable at an instant
 when no operation is active, and a crash falls back to the durable state.
 */
module LogProtocol {
  import opened Recovery

  /** What one process does; used is the number of blocks it has added to the log. */
  datatype Op = Idle | Active(used: nat)

  datatype Phase =
    | Running
    | WriteLog(tail: nat)      // commit: write_log
    | Install(tail: nat)       // commit: install_trans(0)
    | Finished                 // commit is done, log.committing still set
    | Down                     // crashed
    | Reinstall(tail: nat)     // recover_from_log: install_trans(1)

  /** view is what the home blocks read as in memory; lh is log.lh. */
  datatype State<D> = State(im: Image<D>, view: seq<D>, lh: seq<nat>, ops: seq<Op>, phase: Phase)
  {
    /** log.committing */
    predicate Committing() { phase.WriteLog? || phase.Install? || phase.Finished? }
  }

  datatype Event<D> =
    | BeginOp(p: nat)
    | LogWrite(p: nat, n: nat, data: D)
    | EndOp(p: nat)
    | CommitStep
    | Crash
    | RecoverStep

  /** log.outstanding */
  ghost function Outstanding(ops: seq<Op>): nat {
    if |ops| == 0 then 0 else Outstanding(ops[..|ops| - 1]) + if ops[|ops| - 1].Active? then 1 else 0
  }

  /** The blocks that active operations may still add. */
  ghost function Budget(ops: seq<Op>): int {
    if |ops| == 0 then 0
    else Budget(ops[..|ops| - 1]) + Left(ops[|ops| - 1])
  }

  ghost function Left(op: Op): int {
    if op.Active? then MAXOPBLOCKS - op.used else 0
  }

  /** The panics of log_write. */
  ghost predicate LogWritePanics<D>(l: Layout, s: State<D>) {
    |s.lh| >= LOGSIZE || |s.lh| >= l.size - 1 || Outstanding(s.ops) < 1
  }

  ghost predicate NoRepeats(bs: seq<nat>) {
    forall i, j :: 0 <= i < j < |bs| ==> bs[i] != bs[j]
  }

  /** The disk and the in-memory header are sound, and every access of the next step is in range. */
  ghost predicate Shaped<D>(l: Layout, s: State<D>) {
    && Sound(l, s.im) && NoRepeats(s.im.header)
    && |s.view| == |s.im.blocks| && |s.lh| <= LOGSIZE && l.Home(|s.view|, s.lh) && NoRepeats(s.lh)
    && (s.phase.WriteLog? || s.phase.Install? || s.phase.Reinstall? ==> s.phase.tail <= |s.lh|)
  }

  ghost predicate Enabled<D>(l: Layout, s: State<D>, e: Event<D>) {
    match e
    case BeginOp(p) =>
      && s.phase.Running? && p < |s.ops| && s.ops[p].Idle?
      && |s.lh| + (Outstanding(s.ops) + 1) * MAXOPBLOCKS <= LOGSIZE
    case LogWrite(p, n, _) =>
      && p < |s.ops| && s.ops[p].Active? && !s.phase.Down? && !s.phase.Reinstall?
      && n < |s.view| && !l.InLog(n)
      && !LogWritePanics(l, s) && (n in s.lh || s.ops[p].used < MAXOPBLOCKS)
    case EndOp(p) => p < |s.ops| && s.ops[p].Active? && !s.phase.Down? && !s.phase.Reinstall?
    case CommitStep => s.Committing() && Shaped(l, s)
    case Crash => true
    case RecoverStep => (s.phase.Down? || s.phase.Reinstall?) && Shaped(l, s)
  }

  // ---- the invariant ----

  ghost predicate AllIdle(ops: seq<Op>) {
    forall p :: 0 <= p < |ops| ==> ops[p].Idle?
  }

  /** Only blocks in the log differ between memory and disk. */
  ghost predicate CleanOutside<D>(l: Layout, d: seq<D>, view: seq<D>, lh: seq<nat>) {
    && |view| == |d|
    && forall n :: 0 <= n < |view| && !l.InLog(n) && n !in lh ==> view[n] == d[n]
  }

  /** The first k log data blocks hold the blocks of view that lh lists. */
  ghost predicate LogHolds<D>(l: Layout, d: seq<D>, view: seq<D>, lh: seq<nat>, k: nat) {
    && l.Fits(|d|) && |view| == |d| && k <= |lh| <= LOGSIZE && l.Home(|d|, lh)
    && forall i :: 0 <= i < k ==> d[l.start + 1 + i] == view[lh[i]]
  }

  /** The first k blocks of bs equal their logged copies. */
  ghost predicate IsHome<D>(l: Layout, d: seq<D>, bs: seq<nat>, k: nat) {
    && l.Fits(|d|) && k <= |bs| <= LOGSIZE && l.Home(|d|, bs)
    && forall i :: 0 <= i < k ==> d[bs[i]] == d[l.start + 1 + i]
  }

  ghost predicate InBudget(ops: seq<Op>) {
    forall p :: 0 <= p < |ops| && ops[p].Active? ==> ops[p].used <= MAXOPBLOCKS
  }

  ghost predicate Inv<D>(l: Layout, s: State<D>) {
    && Shaped(l, s) && InBudget(s.ops)
    && (!s.phase.Running? ==> AllIdle(s.ops))
    && PhaseInv(l, s)
  }

  ghost predicate PhaseInv<D>(l: Layout, s: State<D>) {
    var d := s.im.blocks;
    match s.phase
    case Running => s.im.header == [] && CleanOutside(l, d, s.view, s.lh) && |s.lh| + Budget(s.ops) <= LOGSIZE
    case WriteLog(t) => s.im.header == [] && CleanOutside(l, d, s.view, s.lh) && LogHolds(l, d, s.view, s.lh, t)
    case Install(t) =>
      && s.im.header == s.lh && CleanOutside(l, d, s.view, s.lh)
      && LogHolds(l, d, s.view, s.lh, |s.lh|) && IsHome(l, d, s.lh, t)
    case Finished => s.im.header == [] && s.lh == [] && CleanOutside(l, d, s.view, s.lh)
    case Down => true
    case Reinstall(t) => s.lh == s.im.header && IsHome(l, d, s.lh, t)
  }

  // ---- the steps ----

  ghost function Stopped(ops: seq<Op>): (r: seq<Op>)
    ensures |r| == |ops| && AllIdle(r)
  {
    seq(|ops|, _ => Idle)
  }

  ghost function Next<D>(l: Layout, s: State<D>, e: Event<D>): State<D>
    requires Enabled(l, s, e)
  {
    match e
    case BeginOp(p) => s.(ops := s.ops[p := Active(0)])
    case LogWrite(p, n, data) => Written(s, p, n, data)
    case EndOp(p) => Ended(s, p)
    case CommitStep => NextCommit(l, s)
    case Crash => s.(lh := [], ops := Stopped(s.ops), phase := Down)
    case RecoverStep => NextRecover(l, s)
  }

  /** A block that is already in the log is absorbed. */
  ghost function Written<D>(s: State<D>, p: nat, n: nat, data: D): State<D>
    requires p < |s.ops| && s.ops[p].Active? && n < |s.view|
  {
    if n in s.lh then s.(view := s.view[n := data])
    else s.(view := s.view[n := data], lh := s.lh + [n], ops := s.ops[p := Active(s.ops[p].used + 1)])
  }

  /** The last operation to end starts the commit. */
  ghost function Ended<D>(s: State<D>, p: nat): State<D>
    requires p < |s.ops|
  {
    var ops := s.ops[p := Idle];
    s.(ops := ops, phase := if Outstanding(ops) == 0 then WriteLog(0) else s.phase)
  }

  /** One disk write of commit, or its end; with an empty log commit writes nothing. */
  ghost function NextCommit<D>(l: Layout, s: State<D>): State<D>
    requires Shaped(l, s) && s.Committing()
  {
    match s.phase
    case WriteLog(t) =>
      if |s.lh| == 0 then s.(phase := Finished)
      else if t < |s.lh| then s.(im := Step(l, s.im, Put(l.start + 1 + t, s.view[s.lh[t]])), phase := WriteLog(t + 1))
      else s.(im := Step(l, s.im, Head(s.lh)), phase := Install(0))
    case Install(t) =>
      if t < |s.lh| then s.(im := Step(l, s.im, Put(s.lh[t], s.im.blocks[l.start + 1 + t])), phase := Install(t + 1))
      else s.(im := Step(l, s.im, Head([])), lh := [], phase := Finished)
    case _ => s.(phase := Running)
  }

  /** One disk write of recover_from_log; with the last one the system runs again. */
  ghost function NextRecover<D>(l: Layout, s: State<D>): State<D>
    requires Shaped(l, s) && (s.phase.Down? || s.phase.Reinstall?)
  {
    if s.phase.Down? then s.(lh := s.im.header, phase := Reinstall(0))
    else
      var t := s.phase.tail;
      if t < |s.lh| then s.(im := Step(l, s.im, Put(s.lh[t], s.im.blocks[l.start + 1 + t])), phase := Reinstall(t + 1))
      else
        var im := Step(l, s.im, Head([]));
        s.(im := im, lh := [], view := im.blocks, phase := Running)
  }

  // ---- budgets ----

  lemma {:induction false} UpdateOps(ops: seq<Op>, p: nat, op: Op)
    requires p < |ops|
    ensures Budget(ops[p := op]) == Budget(ops) - Left(ops[p]) + Left(op)
    ensures Outstanding(ops[p := op]) ==
      Outstanding(ops) - (if ops[p].Active? then 1 else 0) + (if op.Active? then 1 else 0)
    decreases |ops|
  {
    var k := |ops| - 1;
    if p < k {
      assert ops[p := op][..k] == ops[..k][p := op];
      UpdateOps(ops[..k], p, op);
    } else {
      assert ops[p := op][..k] == ops[..k];
    }
  }

  lemma {:induction false} Bounds(ops: seq<Op>)
    requires InBudget(ops)
    ensures 0 <= Budget(ops) <= MAXOPBLOCKS * Outstanding(ops)
    ensures Outstanding(ops) == 0 <==> AllIdle(ops)
    ensures AllIdle(ops) ==> Budget(ops) == 0
    decreases |ops|
  {
    if |ops| > 0 {
      Bounds(ops[..|ops| - 1]);
      assert AllIdle(ops) <==> AllIdle(ops[..|ops| - 1]) && ops[|ops| - 1].Idle?;
    }
  }

  lemma {:induction false} BudgetAtLeast(ops: seq<Op>, p: nat)
    requires p < |ops| && InBudget(ops)
    ensures Budget(ops) >= Left(ops[p])
    decreases |ops|
  {
    var k := |ops| - 1;
    Bounds(ops[..k]);
    if p < k {
      BudgetAtLeast(ops[..k], p);
    }
  }

  // ---- every step keeps the invariant ----

  lemma BeginKeeps<D>(l: Layout, s: State<D>, p: nat)
    requires Inv(l, s) && Enabled(l, s, BeginOp(p))
    ensures Inv(l, Next(l, s, BeginOp(p)))
  {
    UpdateOps(s.ops, p, Active(0));
    Bounds(s.ops);
  }

  lemma LogWriteKeeps<D>(l: Layout, s: State<D>, p: nat, n: nat, data: D)
    requires Inv(l, s) && Enabled(l, s, LogWrite(p, n, data))
    ensures Inv(l, Next(l, s, LogWrite(p, n, data)))
  {
    UpdateOps(s.ops, p, Active(s.ops[p].used + 1));
  }

  lemma EndKeeps<D>(l: Layout, s: State<D>, p: nat)
    requires Inv(l, s) && Enabled(l, s, EndOp(p))
    ensures Inv(l, Next(l, s, EndOp(p)))
  {
    UpdateOps(s.ops, p, Idle);
    Bounds(s.ops[p := Idle]);
  }

  lemma WriteLogKeeps<D>(l: Layout, s: State<D>)
    requires Inv(l, s) && s.phase.WriteLog?
    ensures Inv(l, NextCommit(l, s))
  {
  }

  lemma InstallOneKeeps<D>(l: Layout, d: seq<D>, view: seq<D>, bs: seq<nat>, t: nat)
    requires IsHome(l, d, bs, t) && t < |bs| && NoRepeats(bs)
    ensures IsHome(l, d[bs[t] := d[l.start + 1 + t]], bs, t + 1)
    ensures LogHolds(l, d, view, bs, |bs|) ==> LogHolds(l, d[bs[t] := d[l.start + 1 + t]], view, bs, |bs|)
    ensures CleanOutside(l, d, view, bs) ==> CleanOutside(l, d[bs[t] := d[l.start + 1 + t]], view, bs)
  {
  }

  lemma InstallKeeps<D>(l: Layout, s: State<D>)
    requires Inv(l, s) && s.phase.Install?
    ensures Inv(l, NextCommit(l, s))
  {
    var t := s.phase.tail;
    if t < |s.lh| {
      InstallOneKeeps(l, s.im.blocks, s.view, s.lh, t);
    } else {
      InstalledIsClean(l, s.im.blocks, s.view, s.lh);
    }
  }

  lemma InstalledIsClean<D>(l: Layout, d: seq<D>, view: seq<D>, bs: seq<nat>)
    requires IsHome(l, d, bs, |bs|) && LogHolds(l, d, view, bs, |bs|) && CleanOutside(l, d, view, bs)
    ensures CleanOutside(l, d, view, [])
  {
    forall n | 0 <= n < |view| && !l.InLog(n) && n in bs ensures view[n] == d[n] {
      var i :| 0 <= i < |bs| && bs[i] == n;
    }
  }

  lemma FinishKeeps<D>(l: Layout, s: State<D>)
    requires Inv(l, s) && s.phase.Finished?
    ensures Inv(l, NextCommit(l, s))
  {
    Bounds(s.ops);
  }

  lemma RecoverKeeps<D>(l: Layout, s: State<D>)
    requires Inv(l, s) && (s.phase.Down? || s.phase.Reinstall?)
    ensures Inv(l, NextRecover(l, s))
  {
    Bounds(s.ops);
    if s.phase.Reinstall? && s.phase.tail < |s.lh| {
      InstallOneKeeps(l, s.im.blocks, s.view, s.lh, s.phase.tail);
    }
  }

  lemma NextKeeps<D>(l: Layout, s: State<D>, e: Event<D>)
    requires Inv(l, s) && Enabled(l, s, e)
    ensures Inv(l, Next(l, s, e))
  {
    match e
    case BeginOp(p) => BeginKeeps(l, s, p);
    case LogWrite(p, n, data) => LogWriteKeeps(l, s, p, n, data);
    case EndOp(p) => EndKeeps(l, s, p);
    case CommitStep =>
      if s.phase.WriteLog? {
        WriteLogKeeps(l, s);
      } else if s.phase.Install? {
        InstallKeeps(l, s);
      } else {
        FinishKeeps(l, s);
      }
    case Crash =>
    case RecoverStep => RecoverKeeps(l, s);
  }

  // ---- refinement ----

  /** The specification: two states and the set of active operations. */
  datatype Spec<D> = Spec(durable: map<nat, D>, current: map<nat, D>, active: set<nat>)

  datatype SpecEvent<D> = SBegin(p: nat) | SWrite(p: nat, n: nat, data: D) | SEnd(p: nat) | SCommit | SCrash | SStutter

  ghost predicate SpecStep<D>(a: Spec<D>, e: SpecEvent<D>, b: Spec<D>) {
    match e
    case SBegin(p) => p !in a.active && b == a.(active := a.active + {p})
    case SWrite(p, n, data) => p in a.active && n in a.current && b == a.(current := a.current[n := data])
    case SEnd(p) => p in a.active && b == a.(active := a.active - {p})
    case SCommit => a.active == {} && b == a.(durable := a.current)
    case SCrash => b == a.(current := a.durable, active := {})
    case SStutter => b == a
  }

  ghost function HomeMap<D>(l: Layout, v: seq<D>): map<nat, D> {
    map n: nat | n < |v| && !l.InLog(n) :: v[n]
  }

  ghost function ActiveOps(ops: seq<Op>): set<nat> {
    set p: nat | p < |ops| && ops[p].Active?
  }

  ghost function Abs<D>(l: Layout, s: State<D>): Spec<D>
    requires Sound(l, s.im)
  {
    var durable := Restored(l, s.im);
    Spec(durable, if s.phase.Down? || s.phase.Reinstall? then durable else HomeMap(l, s.view), ActiveOps(s.ops))
  }

  /** What each concrete step is in the specification: the commit is the header write. */
  ghost function AbsEvent<D>(s: State<D>, e: Event<D>): SpecEvent<D> {
    match e
    case BeginOp(p) => SBegin(p)
    case LogWrite(p, n, data) => SWrite(p, n, data)
    case EndOp(p) => SEnd(p)
    case CommitStep => if s.phase.WriteLog? && s.phase.tail == |s.lh| > 0 then SCommit else SStutter
    case Crash => SCrash
    case RecoverStep => SStutter
  }

  /** The installs of commit and of recovery, and the erasing of the header, leave the restored state alone. */
  lemma InstallRefines<D>(l: Layout, im: Image<D>, t: nat)
    requires Sound(l, im) && IsHome(l, im.blocks, im.header, t)
    ensures t < |im.header| ==>
      Restored(l, Step(l, im, Put(im.header[t], im.blocks[l.start + 1 + t]))) == Restored(l, im)
    ensures t == |im.header| ==>
      && Restored(l, Step(l, im, Head([]))) == Restored(l, im)
      && HomeMap(l, im.blocks) == Restored(l, im)
  {
    if t < |im.header| {
      InstallNeutral(l, im, im.header[t], im.blocks[l.start + 1 + t]);
    } else {
      forall n | n in Restored(l, im) ensures im.blocks[n] == Restored(l, im)[n] {
        var i := Last(im.header, n);
        assert i >= 0 ==> im.blocks[im.header[i]] == im.blocks[l.start + 1 + i];
      }
      EraseNeutral(l, im);
    }
  }

  /** The header write of commit makes the current state durable. */
  lemma HeadRefines<D>(l: Layout, im: Image<D>, view: seq<D>, lh: seq<nat>)
    requires Sound(l, im) && CleanOutside(l, im.blocks, view, lh) && LogHolds(l, im.blocks, view, lh, |lh|)
    ensures Restored(l, Step(l, im, Head(lh))) == HomeMap(l, view)
  {
    forall n: nat | n < |view| && !l.InLog(n) ensures Overlay(l, im.blocks, lh, n) == view[n] {
      OverlayIsView(l, im.blocks, view, lh, n);
    }
  }

  lemma OverlayIsView<D>(l: Layout, d: seq<D>, view: seq<D>, lh: seq<nat>, n: nat)
    requires CleanOutside(l, d, view, lh) && LogHolds(l, d, view, lh, |lh|) && n < |d| && !l.InLog(n)
    ensures Overlay(l, d, lh, n) == view[n]
  {
    var i := Last(lh, n);
    assert i >= 0 ==> d[l.start + 1 + i] == view[lh[i]];
  }

  /** What a step of commit does to the restored state. */
  lemma WriteLogRestores<D>(l: Layout, s: State<D>)
    requires Inv(l, s) && s.phase.WriteLog?
    ensures Restored(l, NextCommit(l, s).im) == if s.phase.tail == |s.lh| > 0 then HomeMap(l, s.view)
      else Restored(l, s.im)
  {
    var t := s.phase.tail;
    if t < |s.lh| {
      LogWriteNeutral(l, s.im, l.start + 1 + t, s.view[s.lh[t]]);
    } else {
      HeadRefines(l, s.im, s.view, s.lh);
    }
  }

  lemma InstallRestores<D>(l: Layout, s: State<D>)
    requires Inv(l, s) && s.phase.Install?
    ensures Restored(l, NextCommit(l, s).im) == Restored(l, s.im)
  {
    var im, t := s.im, s.phase.tail;
    InstallRefines(l, im, t);
    assert NextCommit(l, s).im ==
      if t < |im.header| then Step(l, im, Put(im.header[t], im.blocks[l.start + 1 + t])) else Step(l, im, Head([]));
  }

  lemma CommitRefines<D>(l: Layout, s: State<D>)
    requires Inv(l, s) && s.Committing()
    ensures Sound(l, NextCommit(l, s).im)
    ensures SpecStep(Abs(l, s), AbsEvent(s, CommitStep), Abs(l, NextCommit(l, s)))
  {
    assert ActiveOps(s.ops) == {};
    if s.phase.WriteLog? {
      WriteLogRestores(l, s);
    } else if s.phase.Install? {
      InstallRestores(l, s);
    }
  }

  lemma RecoverRefines<D>(l: Layout, s: State<D>)
    requires Inv(l, s) && (s.phase.Down? || s.phase.Reinstall?)
    ensures Sound(l, NextRecover(l, s).im)
    ensures Abs(l, NextRecover(l, s)) == Abs(l, s)
  {
    if s.phase.Reinstall? {
      InstallRefines(l, s.im, s.phase.tail);
    }
  }

  lemma OpRefines<D>(l: Layout, s: State<D>, e: Event<D>)
    requires Inv(l, s) && Enabled(l, s, e) && (e.BeginOp? || e.LogWrite? || e.EndOp?)
    ensures Next(l, s, e).im == s.im
    ensures SpecStep(Abs(l, s), AbsEvent(s, e), Abs(l, Next(l, s, e)))
  {
    match e
    case BeginOp(p) => assert ActiveOps(s.ops[p := Active(0)]) == ActiveOps(s.ops) + {p};
    case LogWrite(p, n, data) =>
      assert ActiveOps(s.ops[p := Active(s.ops[p].used + 1)]) == ActiveOps(s.ops);
      assert HomeMap(l, s.view[n := data]) == HomeMap(l, s.view)[n := data];
    case EndOp(p) => assert ActiveOps(s.ops[p := Idle]) == ActiveOps(s.ops) - {p};
  }

  /** Every concrete step is a step of the specification. */
  lemma Refines<D>(l: Layout, s: State<D>, e: Event<D>)
    requires Inv(l, s) && Enabled(l, s, e)
    ensures Inv(l, Next(l, s, e))
    ensures SpecStep(Abs(l, s), AbsEvent(s, e), Abs(l, Next(l, s, e)))
  {
    NextKeeps(l, s, e);
    if e.CommitStep? {
      CommitRefines(l, s);
    } else if e.RecoverStep? {
      RecoverRefines(l, s);
    } else if e.Crash? {
      assert ActiveOps(Stopped(s.ops)) == {};
    } else {
      OpRefines(l, s, e);
    }
  }

  // ---- whole runs ----

  /** A run: the state before, the event and so on; every event was enabled. */
  ghost predicate Run<D>(l: Layout, ss: seq<State<D>>, es: seq<Event<D>>) {
    && |ss| == |es| + 1 && Initial(l, ss[0])
    && forall i :: 0 <= i < |es| ==> Enabled(l, ss[i], es[i]) && ss[i + 1] == Next(l, ss[i], es[i])
  }

  /** A fresh file system: the log is empty and memory agrees with the disk. */
  ghost predicate Initial<D>(l: Layout, s: State<D>) {
    && Sound(l, s.im) && s.im.header == [] && s.lh == [] && s.view == s.im.blocks
    && AllIdle(s.ops) && s.phase.Running?
  }

  /** Any blocks that the log fits on, with an empty header, and n processes. */
  ghost function Booted<D>(l: Layout, blocks: seq<D>, n: nat): (s: State<D>)
    requires l.Fits(|blocks|)
    ensures Initial(l, s) && s.view == blocks && |s.ops| == n && Run(l, [s], [])
  {
    State(Image([], blocks), blocks, [], seq(n, _ => Idle), Running)
  }

  /** In every state of every run the invariant holds. */
  lemma {:induction false} RunKeeps<D>(l: Layout, ss: seq<State<D>>, es: seq<Event<D>>, i: nat)
    requires Run(l, ss, es) && i < |ss|
    ensures Inv(l, ss[i])
  {
    if i == 0 {
      Bounds(ss[0].ops);
    } else {
      RunKeeps(l, ss, es, i - 1);
      NextKeeps(l, ss[i - 1], es[i - 1]);
    }
  }

  /** Step i of the run is the header write of a commit. */
  ghost predicate Commits<D>(ss: seq<State<D>>, es: seq<Event<D>>, i: nat)
    requires i < |es| < |ss|
  {
    AbsEvent(ss[i], es[i]).SCommit?
  }

  /** The last commit before state i, or the start of the run. */
  ghost function LastCommit<D>(ss: seq<State<D>>, es: seq<Event<D>>, i: nat): (j: nat)
    requires i <= |es| < |ss|
    ensures j <= i && forall k :: 0 <= k < i && Commits(ss, es, k) ==> k <= j
  {
    if i == 0 then 0 else if Commits(ss, es, i - 1) then i - 1 else LastCommit(ss, es, i - 1)
  }

  /** Only the header write of a commit changes what a crash would restore: to what memory holds. */
  lemma StepRestores<D>(l: Layout, s: State<D>, e: Event<D>, s': State<D>)
    requires Inv(l, s) && Enabled(l, s, e) && s' == Next(l, s, e)
    ensures Sound(l, s.im) && Sound(l, s'.im)
    ensures if AbsEvent(s, e).SCommit? then Quiet(l, s) && Restored(l, s'.im) == HomeMap(l, s.view)
            else Restored(l, s'.im) == Restored(l, s.im)
  {
    Refines(l, s, e);
  }

  /**
   At any point of any run, with crashes anywhere, the state that a crash and recovery
   would leave is what memory held at the last commit before: a moment when no operation
   was active, so whole operations only, and no commit is ever forgotten.
   */
  lemma {:induction false} WholeOperations<D>(l: Layout, ss: seq<State<D>>, es: seq<Event<D>>, i: nat)
    requires Run(l, ss, es) && i < |ss|
    ensures Sound(l, ss[i].im)
    ensures
      var j := LastCommit(ss, es, i);
      Quiet(l, ss[j]) && Restored(l, ss[i].im) == HomeMap(l, ss[j].view)
  {
    RunKeeps(l, ss, es, i);
    if i == 0 {
      assert Quiet(l, ss[0]);
    } else {
      WholeOperations(l, ss, es, i - 1);
      RunKeeps(l, ss, es, i - 1);
      StepRestores(l, ss[i - 1], es[i - 1], ss[i]);
    }
  }

  /** The system is up and no operation is active. */
  ghost predicate Quiet<D>(l: Layout, s: State<D>) {
    AllIdle(s.ops) && !s.phase.Down? && !s.phase.Reinstall?
  }

  lemma WrittenIsView<D>(l: Layout, s: State<D>)
    requires Inv(l, s) && (s.phase.Install? || s.phase.Finished?)
    ensures Restored(l, s.im) == HomeMap(l, s.view)
  {
    if s.phase.Install? {
      forall n: nat | n < |s.view| && !l.InLog(n) ensures Overlay(l, s.im.blocks, s.im.header, n) == s.view[n] {
        OverlayIsView(l, s.im.blocks, s.view, s.lh, n);
      }
    }
  }

  /**
   In every run, from write_head on to the end of the commit, a crash would leave
   everything the operations wrote.
   */
  lemma DurableOnceWritten<D>(l: Layout, ss: seq<State<D>>, es: seq<Event<D>>, i: nat)
    requires Run(l, ss, es) && i < |ss| && (ss[i].phase.Install? || ss[i].phase.Finished?)
    ensures Sound(l, ss[i].im) && Restored(l, ss[i].im) == HomeMap(l, ss[i].view)
  {
    RunKeeps(l, ss, es, i);
    WrittenIsView(l, ss[i]);
  }

  /** In every run, the panics of end_op and log_write are out of reach for operations that keep to MAXOPBLOCKS. */
  lemma NoPanic<D>(l: Layout, ss: seq<State<D>>, es: seq<Event<D>>, i: nat, p: nat)
    requires Run(l, ss, es) && i < |ss| && p < |ss[i].ops| && ss[i].ops[p].Active?
    ensures !ss[i].Committing() && |ss[i].lh| + Budget(ss[i].ops) <= LOGSIZE
    ensures ss[i].ops[p].used < MAXOPBLOCKS ==> !LogWritePanics(l, ss[i])
  {
    RunKeeps(l, ss, es, i);
    Bounds(ss[i].ops);
    BudgetAtLeast(ss[i].ops, p);
  }

  // ---- commits and recoveries end ----

  ghost predicate NoCrash<D>(es: seq<Event<D>>, i: nat, k: int)
    requires k <= |es|
  {
    forall j :: i <= j < k ==> !es[j].Crash?
  }

  ghost predicate AnyMayBegin<D>(l: Layout, s: State<D>) {
    forall p :: 0 <= p < |s.ops| ==> s.ops[p].Idle? && Enabled(l, s, BeginOp(p))
  }

  lemma NoneActive<D>(l: Layout, s: State<D>)
    requires AllIdle(s.ops) && s.phase.Running? && s.lh == []
    ensures AnyMayBegin(l, s)
  {
    Bounds(s.ops);
  }

  /** What a commit has still to do: its disk writes, and two steps of its own. */
  ghost function CommitSteps<D>(s: State<D>): int
    requires s.Committing()
  {
    match s.phase
    case WriteLog(t) => if |s.lh| == 0 then 2 else 2 * |s.lh| - t + 3
    case Install(t) => |s.lh| - t + 2
    case _ => 1
  }

  /** Nobody else acts on the log during a commit. */
  lemma OneCommitStep<D>(l: Layout, s: State<D>, e: Event<D>)
    requires Inv(l, s) && s.Committing() && Enabled(l, s, e) && !e.Crash?
    ensures
      var s' := Next(l, s, e);
      && e == CommitStep && s'.view == s.view && s'.ops == s.ops
      && if s.phase.Finished? then s'.phase.Running? && s'.im == s.im && s'.lh == s.lh == []
         else s'.Committing() && CommitSteps(s') == CommitSteps(s) - 1
  {
  }

  /**
   In every run, a commit that no crash interrupts ends, after at most two disk writes for each
   logged block and two for the header: the log is empty, every block is at home, and operations
   may begin again.
   */
  lemma {:induction false} CommitCompletes<D>(l: Layout, ss: seq<State<D>>, es: seq<Event<D>>, i: nat) returns (k: nat)
    requires Run(l, ss, es) && i < |ss| && ss[i].Committing()
    requires i + CommitSteps(ss[i]) <= |es| && NoCrash(es, i, i + CommitSteps(ss[i]))
    ensures i < k <= |es| && k - i == CommitSteps(ss[i]) <= 2 * |ss[i].lh| + 3
    ensures ss[k].phase.Running? && ss[k].lh == [] && ss[k].im.header == [] && AnyMayBegin(l, ss[k])
    ensures ss[k].view == ss[i].view && HomeMap(l, ss[k].im.blocks) == HomeMap(l, ss[i].view)
    decreases |es| - i
  {
    RunKeeps(l, ss, es, i);
    OneCommitStep(l, ss[i], es[i]);
    if ss[i].phase.Finished? {
      k := i + 1;
      NoneActive(l, ss[k]);
    } else {
      k := CommitCompletes(l, ss, es, i + 1);
    }
  }

  /** What a recovery has still to do: an install for each block that the header lists, and the two ends. */
  ghost function RecoverySteps<D>(s: State<D>): int {
    match s.phase
    case Down => |s.im.header| + 2
    case Reinstall(t) => |s.lh| - t + 1
    case _ => 0
  }

  lemma OneRecoveryStep<D>(l: Layout, s: State<D>, e: Event<D>)
    requires Inv(l, s) && RecoverySteps(s) > 0 && Enabled(l, s, e) && !e.Crash?
    ensures
      var s' := Next(l, s, e);
      && e == RecoverStep && s'.ops == s.ops && RecoverySteps(s') == RecoverySteps(s) - 1
      && Sound(l, s.im) && Sound(l, s'.im) && Restored(l, s'.im) == Restored(l, s.im)
      && (RecoverySteps(s') == 0 ==> s'.phase.Running? && s'.lh == s'.im.header == [] && s'.view == s'.im.blocks)
  {
    RecoverRefines(l, s);
  }

  /**
   In every run, after a crash and without another one, recovery ends with the system running on what
   was to be restored, read from the home blocks, and with an empty log.
   */
  lemma {:induction false} RecoveryCompletes<D>(l: Layout, ss: seq<State<D>>, es: seq<Event<D>>, i: nat)
    returns (k: nat)
    requires Run(l, ss, es) && i < |ss| && (ss[i].phase.Down? || ss[i].phase.Reinstall?)
    requires i + RecoverySteps(ss[i]) <= |es| && NoCrash(es, i, i + RecoverySteps(ss[i]))
    ensures i < k <= |es| && k - i == RecoverySteps(ss[i]) <= LOGSIZE + 2
    ensures ss[k].phase.Running? && ss[k].lh == [] && ss[k].im.header == [] && AnyMayBegin(l, ss[k])
    ensures ss[k].view == ss[k].im.blocks && Sound(l, ss[i].im) && HomeMap(l, ss[k].view) == Restored(l, ss[i].im)
    decreases |es| - i
  {
    RunKeeps(l, ss, es, i);
    OneRecoveryStep(l, ss[i], es[i]);
    if RecoverySteps(ss[i + 1]) == 0 {
      k := i + 1;
      NothingLogged(l, ss[k].im);
      NoneActive(l, ss[k]);
    } else {
      k := RecoveryCompletes(l, ss, es, i + 1);
    }
  }

  lemma NothingLogged<D>(l: Layout, im: Image<D>)
    requires Sound(l, im) && im.header == []
    ensures Restored(l, im) == HomeMap(l, im.blocks)
  {
  }
}
