/**
 The class of module Log and the state machine of module LogProtocol are two models of one
 log (kernel/log.c:126-235). Each call of the class is a step of the machine, and the last
 end_op is such a step and a commit, disk write for disk write.
 */
module LogRuns {
  import opened Common
  import opened LogProtocol
  import opened Recovery
  import opened Block
  import B = Bio
  import L = Log

  /** Any number of commit's steps. */
  ghost predicate CommitRun<D>(l: Layout, ss: seq<State<D>>) {
    && |ss| > 0
    && forall i :: 0 <= i < |ss| - 1 ==> Enabled(l, ss[i], CommitStep) && ss[i + 1] == Next(l, ss[i], CommitStep)
  }

  /** Where the commit of bs is after k disk writes. */
  ghost function PhaseAt(n: nat, k: nat): Phase {
    if k <= n then WriteLog(k) else if k <= 2 * n + 1 then Install(k - n - 1) else Finished
  }

  lemma WritesAt<D>(l: Layout, v: seq<D>, bs: seq<nat>, k: nat)
    requires CanCommit(l, v, bs) && k < 2 * |bs| + 2
    ensures
      var ws, n := CommitWrites(l, v, bs), |bs|;
      && |ws| == 2 * n + 2
      && ws[k] == if k < n then Put(l.start + 1 + k, v[bs[k]]) else if k == n then Head(bs)
                  else if k <= 2 * n then Put(bs[k - n - 1], v[bs[k - n - 1]]) else Head([])
  {
  }

  ghost predicate IsCommit<D>(l: Layout, v: seq<D>, bs: seq<nat>, ws: seq<Write<D>>) {
    CanCommit(l, v, bs) && ws == CommitWrites(l, v, bs)
  }

  /** State t is reached from s by disk write w of a commit of n blocks, the k-th; the last one empties the log. */
  ghost predicate Writes<D>(l: Layout, s: State<D>, t: State<D>, w: Write<D>, n: nat, k: nat) {
    && Writable(l, s.im, w) && t.im == Step(l, s.im, w) && t.phase == PhaseAt(n, k + 1)
    && t.view == s.view && t.ops == s.ops && t.lh == if k == 2 * n + 1 then [] else s.lh
  }

  /** One step of commit is its next disk write. */
  lemma OneWrite<D>(l: Layout, s: State<D>, ws: seq<Write<D>>, k: nat)
    requires Inv(l, s) && s.phase == PhaseAt(|s.lh|, k) && k < 2 * |s.lh| + 2 && IsCommit(l, s.view, s.lh, ws)
    ensures |ws| == 2 * |s.lh| + 2 && Writes(l, s, Next(l, s, CommitStep), ws[k], |s.lh|, k)
  {
    WritesAt(l, s.view, s.lh, k);
  }

  /** State t is that of the commit of s after k of its writes ws. */
  ghost predicate CommitAt<D>(l: Layout, s: State<D>, ws: seq<Write<D>>, t: State<D>, k: nat) {
    && k <= |ws| == 2 * |s.lh| + 2 && AllWritable(l, s.im, ws)
    && t.im == Apply(l, s.im, ws[..k]) && t.phase == PhaseAt(|s.lh|, k)
    && t.view == s.view && t.ops == s.ops && t.lh == if k == 2 * |s.lh| + 2 then [] else s.lh
  }

  lemma CommitStarts<D>(l: Layout, s: State<D>) returns (ws: seq<Write<D>>)
    requires Inv(l, s) && s.phase == WriteLog(0) && s.lh != []
    ensures IsCommit(l, s.view, s.lh, ws) && CommitAt(l, s, ws, s, 0)
  {
    ws := CommitWrites(l, s.view, s.lh);
    WritesAt(l, s.view, s.lh, 0);
    forall k | 0 <= k < |ws| ensures Writable(l, s.im, ws[k]) {
      WritesAt(l, s.view, s.lh, k);
    }
  }

  /** The next of the writes is applied to the result of those before. */
  lemma ApplyNext<D>(l: Layout, im: Image<D>, ws: seq<Write<D>>, k: nat, now: Image<D>)
    requires AllWritable(l, im, ws) && k < |ws| && now == Apply(l, im, ws[..k])
    ensures Writable(l, now, ws[k]) && Step(l, now, ws[k]) == Apply(l, im, ws[..k + 1])
  {
    ApplyLast(l, im, ws, k + 1);
  }

  lemma AtNext<D>(l: Layout, s: State<D>, ws: seq<Write<D>>, t: State<D>, t': State<D>, k: nat)
    requires CommitAt(l, s, ws, t, k) && k < |ws| && Writes(l, t, t', ws[k], |s.lh|, k)
    ensures CommitAt(l, s, ws, t', k + 1)
  {
    ApplyNext(l, s.im, ws, k, t.im);
  }

  lemma CommitGoesOn<D>(l: Layout, s: State<D>, ws: seq<Write<D>>, t: State<D>, k: nat)
    requires Inv(l, t) && IsCommit(l, s.view, s.lh, ws) && CommitAt(l, s, ws, t, k) && k < 2 * |s.lh| + 2
    ensures Enabled(l, t, CommitStep) && CommitAt(l, s, ws, Next(l, t, CommitStep), k + 1)
  {
    OneWrite(l, t, ws, k);
    AtNext(l, s, ws, t, Next(l, t, CommitStep), k);
  }

  lemma OneMore<D>(l: Layout, ss: seq<State<D>>, t: State<D>)
    requires CommitRun(l, ss) && Enabled(l, ss[|ss| - 1], CommitStep) && t == Next(l, ss[|ss| - 1], CommitStep)
    ensures CommitRun(l, ss + [t])
  {
  }

  /** After k steps of the commit the disk is what the first k of its writes make of it. */
  lemma {:induction false} CommitImages<D>(l: Layout, s: State<D>, k: nat)
    returns (ss: seq<State<D>>, ws: seq<Write<D>>)
    requires Inv(l, s) && s.phase == WriteLog(0) && s.lh != [] && k <= 2 * |s.lh| + 2
    ensures |ss| == k + 1 && ss[0] == s && CommitRun(l, ss) && Inv(l, ss[k])
    ensures IsCommit(l, s.view, s.lh, ws) && CommitAt(l, s, ws, ss[k], k)
    decreases k
  {
    if k == 0 {
      ws := CommitStarts(l, s);
      ss := [s];
    } else {
      ss, ws := CommitImages(l, s, k - 1);
      CommitGoesOn(l, s, ws, ss[k - 1], k - 1);
      NextKeeps(l, ss[k - 1], CommitStep);
      OneMore(l, ss, Next(l, ss[k - 1], CommitStep));
      ss := ss + [Next(l, ss[k - 1], CommitStep)];
    }
  }

  // ---- what a commit of the class leaves ----

  lemma {:induction false} PlayThen<D>(d: seq<D>, a: seq<B.Write<D>>, b: seq<B.Write<D>>)
    requires L.InRange(|d|, a) && L.InRange(|d|, b)
    ensures L.InRange(|d|, a + b) && L.Play(d, a + b) == L.Play(L.Play(d, a), b)
    decreases |b|
  {
    assert L.InRange(|d|, a + b);
    if |b| == 0 {
      assert a + b == a;
    } else {
      var k := |b| - 1;
      assert (a + b)[..|a + b| - 1] == a + b[..k];
      PlayThen(d, a, b[..k]);
    }
  }

  /** Disk and cache after a commit are what its writes make of them. */
  lemma AfterCommitIs(l: Layout, a: B.Flat, bs: seq<nat>)
    requires L.CanLog(l, a, bs) && L.CanCommit(l, a.view, bs)
    ensures
      var ws, b := L.CommitTrace(l, a.view, bs), L.AfterCommit(l, a, bs);
      L.InRange(|a.view|, ws) && b.disk == L.Play(a.disk, ws) && b.view == L.Play(a.view, ws)
  {
    var v := a.view;
    var w1, v2 := L.LogTrace(l, v, bs, |bs|), L.Prepared(l, v, bs);
    var h := B.Write(l.start, v2[l.start]);
    L.CommitInRange(l, v, bs);
    L.PreparedCanInstall(l, a, bs);
    L.PlayOne(a.disk, w1, h);
    L.PlayOne(v, w1, h);
    var w3 := L.InstallTrace(l, v2, bs, |bs|);
    var h0 := B.Write(l.start, L.PutHeader(L.Play(v2, w3)[l.start], []));
    L.PlayOne(L.AfterPrepare(l, a, bs).disk, w3, h0);
    L.PlayOne(v2, w3, h0);
    PlayThen(a.disk, w1 + [h], w3 + [h0]);
    PlayThen(v, w1 + [h], w3 + [h0]);
  }

  /** Writes that give block n what it has leave it as it is. */
  lemma {:induction false} PlaySame<D>(d: seq<D>, ws: seq<B.Write<D>>, n: nat)
    requires L.InRange(|d|, ws) && n < |d| && forall i :: 0 <= i < |ws| && ws[i].blockno == n ==> ws[i].data == d[n]
    ensures L.Play(d, ws)[n] == d[n]
    decreases |ws|
  {
    if |ws| > 0 { PlaySame(d, ws[..|ws| - 1], n); }
  }

  /** A commit changes no home block of the cache. */
  lemma HomeKept(l: Layout, v: Disk, bs: seq<nat>, n: nat)
    requires L.CanCommit(l, v, bs) && n < |v| && !l.InLog(n)
    ensures L.InRange(|v|, L.CommitTrace(l, v, bs)) && L.Play(v, L.CommitTrace(l, v, bs))[n] == v[n]
  {
    L.CommitInRange(l, v, bs);
    L.CommitMeaning(l, v, bs);
    var ws := L.CommitTrace(l, v, bs);
    forall i | 0 <= i < |ws| && ws[i].blockno == n ensures ws[i].data == v[n] {
      WritesAt(l, v, bs, i);
      assert L.Meaning(l, ws[i]) == CommitWrites(l, v, bs)[i];
    }
    PlaySame(v, ws, n);
  }

  // ---- the class and the machine ----

  /** Both read the same from every home block, but perhaps from block but. */
  ghost predicate SameHomes<D>(l: Layout, v: seq<D>, w: seq<D>, but: int) {
    |v| == |w| && forall n :: 0 <= n < |v| && !l.InLog(n) && n != but ==> v[n] == w[n]
  }

  /** The machine's invariant; the quantifier has one instance and keeps it folded. */
  ghost predicate Kept<D>(l: Layout, s: State<D>) {
    forall m: Layout :: m == l ==> Inv(m, s)
  }

  lemma KeptNext<D>(l: Layout, s: State<D>, e: Event<D>)
    requires Kept(l, s) && Enabled(l, s, e)
    ensures Kept(l, Next(l, s, e))
  {
    assert Inv(l, s);
    NextKeeps(l, s, e);
  }

  /** State s of the machine shows cache a, logged blocks bs and out operations; block but is being changed. */
  ghost predicate Shown(l: Layout, a: B.Flat, bs: seq<nat>, out: nat, s: State<Data>, but: int) {
    && Kept(l, s) && s.phase.Running? && s.lh == bs && Outstanding(s.ops) == out
    && L.Matches(l, s.im, a.disk) && SameHomes(l, s.view, a.view, but)
  }

  lemma ShownBegin(l: Layout, a: B.Flat, bs: seq<nat>, out: nat, s: State<Data>, p: nat)
    requires Shown(l, a, bs, out, s, -1) && p < |s.ops| && s.ops[p].Idle?
    ensures Enabled(l, s, BeginOp(p)) <==> |bs| + (out + 1) * MAXOPBLOCKS <= LOGSIZE
    ensures Enabled(l, s, BeginOp(p)) ==> Shown(l, a, bs, out + 1, Next(l, s, BeginOp(p)), -1)
  {
    if Enabled(l, s, BeginOp(p)) {
      KeptNext(l, s, BeginOp(p));
      UpdateOps(s.ops, p, Active(0));
    }
  }

  lemma SameCount(ops: seq<Op>, p: nat, used: nat)
    requires p < |ops| && ops[p].Active?
    ensures Outstanding(ops[p := Active(used)]) == Outstanding(ops)
  {
    UpdateOps(ops, p, Active(used));
  }

  lemma ShownWritten(l: Layout, a: B.Flat, s: State<Data>, n: nat, t: State<Data>)
    requires L.Matches(l, s.im, a.disk) && SameHomes(l, s.view, a.view, n) && n < |a.view|
    requires t.im == s.im && t.view == s.view[n := a.view[n]]
    ensures L.Matches(l, t.im, a.disk) && SameHomes(l, t.view, a.view, -1)
  {
  }

  lemma ShownWrite(l: Layout, a: B.Flat, bs: seq<nat>, out: nat, s: State<Data>, p: nat, n: nat, a': B.Flat)
    requires Shown(l, a, bs, out, s, n) && p < |s.ops| && s.ops[p].Active? && n < |a.view| && !l.InLog(n)
    requires a'.view == a.view && a'.disk == a.disk
    ensures LogWritePanics(l, s) <==> |bs| >= LOGSIZE || |bs| >= l.size - 1 || out < 1
    ensures Enabled(l, s, LogWrite(p, n, a.view[n])) ==>
      Shown(l, a', if n in bs then bs else bs + [n], out, Next(l, s, LogWrite(p, n, a.view[n])), -1)
  {
    var e := LogWrite(p, n, a.view[n]);
    if Enabled(l, s, e) {
      KeptNext(l, s, e);
      SameCount(s.ops, p, s.ops[p].used + 1);
      ShownWritten(l, a, s, n, Next(l, s, e));
    }
  }

  lemma ShownEnd(l: Layout, a: B.Flat, bs: seq<nat>, out: nat, s: State<Data>, p: nat)
    requires Shown(l, a, bs, out, s, -1) && p < |s.ops| && s.ops[p].Active?
    ensures out > 0 && Enabled(l, s, EndOp(p)) && Kept(l, Next(l, s, EndOp(p)))
    ensures
      var t := Next(l, s, EndOp(p));
      if out > 1 then Shown(l, a, bs, out - 1, t, -1)
      else t == s.(ops := t.ops, phase := WriteLog(0)) && Outstanding(t.ops) == 0
  {
    KeptNext(l, s, EndOp(p));
    UpdateOps(s.ops, p, Idle);
  }

  /** The commit of an empty log. */
  lemma ShownNothing(l: Layout, a: B.Flat, s: State<Data>) returns (ss: seq<State<Data>>)
    requires Kept(l, s) && s.phase == WriteLog(0) && s.lh == [] && Outstanding(s.ops) == 0
    requires L.Matches(l, s.im, a.disk) && SameHomes(l, s.view, a.view, -1)
    ensures CommitRun(l, ss) && ss[0] == s && Shown(l, a, [], 0, ss[|ss| - 1], -1)
  {
    assert Inv(l, s);
    var t := Next(l, s, CommitStep);
    KeptNext(l, s, CommitStep);
    KeptNext(l, t, CommitStep);
    ss := [s, t, Next(l, t, CommitStep)];
  }

  lemma SameWrites(l: Layout, v: Disk, w: Disk, bs: seq<nat>)
    requires SameHomes(l, v, w, -1) && CanCommit(l, v, bs)
    ensures CanCommit(l, w, bs) && CommitWrites(l, v, bs) == CommitWrites(l, w, bs)
  {
    assert LogWrites(l, v, bs) == LogWrites(l, w, bs);
    assert HomeWrites(v, bs) == HomeWrites(w, bs);
  }

  lemma DiskAfter(l: Layout, im: Image<Data>, a: B.Flat, bs: seq<nat>)
    requires L.CanLog(l, a, bs) && L.CanCommit(l, a.view, bs)
    requires L.Matches(l, im, a.disk) && Sound(l, im) && im.header == []
    ensures AllWritable(l, im, CommitWrites(l, a.view, bs))
    ensures L.Matches(l, Apply(l, im, CommitWrites(l, a.view, bs)), L.AfterCommit(l, a, bs).disk)
  {
    var k := 2 * |bs| + 2;
    L.CommitOnDisk(l, im, a.disk, a.view, bs, k);
    AfterCommitIs(l, a, bs);
    var ws, rs := L.CommitTrace(l, a.view, bs), CommitWrites(l, a.view, bs);
    assert ws[..k] == ws && rs[..k] == rs;
  }

  lemma ImageAfter<D>(l: Layout, s: State<D>, ws: seq<Write<D>>, t: State<D>)
    requires CommitAt(l, s, ws, t, |ws|)
    ensures t.im == Apply(l, s.im, ws)
  {
    assert ws[..|ws|] == ws;
  }

  lemma CommittedDisk(l: Layout, a: B.Flat, bs: seq<nat>, s: State<Data>, ws: seq<Write<Data>>, t: State<Data>)
    requires L.CanLog(l, a, bs) && L.CanCommit(l, a.view, bs) && Sound(l, s.im) && s.im.header == [] && s.lh == bs
    requires L.Matches(l, s.im, a.disk) && SameHomes(l, s.view, a.view, -1)
    requires IsCommit(l, s.view, bs, ws) && CommitAt(l, s, ws, t, |ws|)
    ensures L.Matches(l, t.im, L.AfterCommit(l, a, bs).disk)
  {
    SameWrites(l, s.view, a.view, bs);
    ImageAfter(l, s, ws, t);
    DiskAfter(l, s.im, a, bs);
  }

  lemma CommittedView(l: Layout, a: B.Flat, bs: seq<nat>, v: Disk)
    requires L.CanLog(l, a, bs) && L.CanCommit(l, a.view, bs) && SameHomes(l, v, a.view, -1)
    ensures SameHomes(l, v, L.AfterCommit(l, a, bs).view, -1)
  {
    AfterCommitIs(l, a, bs);
    forall n | 0 <= n < |v| && !l.InLog(n) ensures v[n] == L.AfterCommit(l, a, bs).view[n] {
      HomeKept(l, a.view, bs, n);
    }
  }

  /** The end of a commit. */
  lemma ShownLast(l: Layout, s: State<Data>, ws: seq<Write<Data>>, t: State<Data>, b: B.Flat)
    requires Inv(l, t) && CommitAt(l, s, ws, t, |ws|) && Outstanding(s.ops) == 0
    requires L.Matches(l, t.im, b.disk) && SameHomes(l, s.view, b.view, -1)
    ensures Enabled(l, t, CommitStep) && Shown(l, b, [], 0, Next(l, t, CommitStep), -1)
  {
    NextKeeps(l, t, CommitStep);
  }

  /** What the machine's commit leaves, in state t, is what the class's leaves. */
  lemma Committed(l: Layout, a: B.Flat, bs: seq<nat>, s: State<Data>, ws: seq<Write<Data>>, t: State<Data>)
    returns (b: B.Flat)
    requires L.CanLog(l, a, bs) && L.CanCommit(l, a.view, bs) && Sound(l, s.im) && s.im.header == [] && s.lh == bs
    requires L.Matches(l, s.im, a.disk) && SameHomes(l, s.view, a.view, -1)
    requires IsCommit(l, s.view, bs, ws) && CommitAt(l, s, ws, t, |ws|)
    ensures b == L.AfterCommit(l, a, bs) && L.Matches(l, t.im, b.disk) && SameHomes(l, s.view, b.view, -1)
  {
    b := L.AfterCommit(l, a, bs);
    CommittedDisk(l, a, bs, s, ws, t);
    CommittedView(l, a, bs, s.view);
  }

  /** The machine's commit: its disk writes, and the step that ends it. */
  lemma CommitWhole<D>(l: Layout, s: State<D>) returns (ss: seq<State<D>>, ws: seq<Write<D>>, t: State<D>)
    requires Inv(l, s) && s.phase == WriteLog(0) && s.lh != []
    ensures Inv(l, t) && IsCommit(l, s.view, s.lh, ws) && CommitAt(l, s, ws, t, |ws|) && Enabled(l, t, CommitStep)
    ensures CommitRun(l, ss) && ss[0] == s && ss[|ss| - 1] == Next(l, t, CommitStep)
  {
    var path;
    path, ws := CommitImages(l, s, 2 * |s.lh| + 2);
    t := path[|path| - 1];
    ss := path + [Next(l, t, CommitStep)];
    OneMore(l, path, Next(l, t, CommitStep));
  }

  /** The commit of the class is a commit of the machine. */
  lemma ShownCommit(l: Layout, a: B.Flat, bs: seq<nat>, s: State<Data>) returns (ss: seq<State<Data>>)
    requires L.CanLog(l, a, bs) && L.CanCommit(l, a.view, bs)
    requires Kept(l, s) && s.phase == WriteLog(0) && s.lh == bs && Outstanding(s.ops) == 0
    requires L.Matches(l, s.im, a.disk) && SameHomes(l, s.view, a.view, -1)
    ensures CommitRun(l, ss) && ss[0] == s && Shown(l, L.AfterCommit(l, a, bs), [], 0, ss[|ss| - 1], -1)
  {
    assert Inv(l, s);
    var ws, t;
    ss, ws, t := CommitWhole(l, s);
    var b := Committed(l, a, bs, s, ws, t);
    ShownLast(l, s, ws, t, b);
  }

  /** Log lg stands at state s of the machine. */
  ghost predicate Stands(lg: L.Log, s: State<Data>)
    reads lg, lg.bc
  {
    lg.Ready() && !lg.committing && Shown(lg.l, lg.bc.abs, lg.Lh(), lg.outstanding, s, -1)
  }

  /** begin_op admits an operation exactly where the machine does, and is that step of it. */
  method Begin(lg: L.Log, ghost s: State<Data>, ghost p: nat) returns (admitted: bool)
    requires Stands(lg, s) && p < |s.ops| && s.ops[p].Idle?
    modifies lg`outstanding
    ensures admitted <==> Enabled(lg.l, s, BeginOp(p))
    ensures Stands(lg, if admitted then Next(lg.l, s, BeginOp(p)) else s)
  {
    ShownBegin(lg.l, lg.bc.abs, lg.Lh(), lg.outstanding, s, p);
    admitted := lg.BeginOp();
  }

  /** log_write of a block that its holder has changed panics exactly where the machine says, and is that step of it. */
  method Write(lg: L.Log, b: nat, n: nat, ghost s: State<Data>, ghost p: nat) returns (ok: bool)
    requires lg.Ready() && !lg.committing && Shown(lg.l, lg.bc.abs, lg.Lh(), lg.outstanding, s, n)
    requires n in lg.bc.abs.held && lg.bc.abs.held[n] == b && !lg.l.InLog(n)
    requires p < |s.ops| && s.ops[p].Active? && (n in s.lh || s.ops[p].used < MAXOPBLOCKS)
    modifies lg.bc, lg`n, lg`block
    ensures ok <==> !LogWritePanics(lg.l, s)
    ensures ok ==>
      n < |old(lg.bc.abs).view| && Enabled(lg.l, s, LogWrite(p, n, old(lg.bc.abs).view[n]))
      && Stands(lg, Next(lg.l, s, LogWrite(p, n, old(lg.bc.abs).view[n])))
  {
    ghost var a, bs := lg.bc.abs, lg.Lh();
    ok := lg.LogWrite(b, n);
    ShownWrite(lg.l, a, bs, lg.outstanding, s, p, n, lg.bc.abs);
  }

  /** end_op, unless it finds no buffer, is that step of the machine, and the last one also a commit. */
  method End(lg: L.Log, ghost s: State<Data>, ghost p: nat) returns (ok: bool, ghost ss: seq<State<Data>>)
    requires Stands(lg, s) && p < |s.ops| && s.ops[p].Active? && L.LogApart(lg.l, lg.bc.abs)
    modifies lg, lg.bc
    ensures ok <==> lg.outstanding > 0 || old(lg.n) == 0 || |B.Busy(old(lg.bc.abs))| < B.NBUF
    ensures ok ==>
      && Enabled(lg.l, s, EndOp(p)) && CommitRun(lg.l, ss) && ss[0] == Next(lg.l, s, EndOp(p))
      && Stands(lg, ss[|ss| - 1])
  {
    ghost var a, bs, t := lg.bc.abs, lg.Lh(), Next(lg.l, s, EndOp(p));
    ShownEnd(lg.l, a, bs, lg.outstanding, s, p);
    ok := lg.EndOp();
    assert ok ==> lg.Ready();
    ss := [t];
    if ok && lg.outstanding == 0 {
      if bs == [] {
        ss := ShownNothing(lg.l, a, t);
      } else {
        ss := ShownCommit(lg.l, L.Unread(a, bs), bs, t);
      }
    }
  }

  // ---- recovery ----

  ghost predicate RecoverRun<D>(l: Layout, ss: seq<State<D>>) {
    && |ss| > 0
    && forall i :: 0 <= i < |ss| - 1 ==> Enabled(l, ss[i], RecoverStep) && ss[i + 1] == Next(l, ss[i], RecoverStep)
  }

  lemma OneMoreRecovered<D>(l: Layout, ss: seq<State<D>>, t: State<D>)
    requires RecoverRun(l, ss) && Enabled(l, ss[|ss| - 1], RecoverStep) && t == Next(l, ss[|ss| - 1], RecoverStep)
    ensures RecoverRun(l, ss + [t])
  {
  }

  /** The image after k installs of the recovery of im, with writes ws; the log area is as it was. */
  ghost predicate InstalledTo<D>(l: Layout, im: Image<D>, ws: seq<Write<D>>, now: Image<D>, k: nat) {
    && Sound(l, im) && AllWritable(l, im, ws) && k <= |ws| && now == Apply(l, im, ws[..k])
    && forall n :: 0 <= n < |im.blocks| && l.InLog(n) ==> now.blocks[n] == im.blocks[n]
  }

  /** State t of the recovery of im, after k installs. */
  ghost predicate RecoveryAt<D>(l: Layout, im: Image<D>, ws: seq<Write<D>>, t: State<D>, k: nat) {
    && k <= |im.header| && InstalledTo(l, im, ws, t.im, k) && t.phase == Reinstall(k) && t.lh == im.header
  }

  /** One install of recovery, on the image. */
  lemma RecoveryWrite<D>(l: Layout, im: Image<D>, ws: seq<Write<D>>, now: Image<D>, k: nat)
    requires InstalledTo(l, im, ws, now, k) && k < |im.header| && ws == RecoveryWrites(l, im)
    ensures Writable(l, now, Put(im.header[k], now.blocks[l.start + 1 + k]))
    ensures InstalledTo(l, im, ws, Step(l, now, Put(im.header[k], now.blocks[l.start + 1 + k])), k + 1)
  {
    assert ws[k] == Put(im.header[k], im.blocks[l.start + 1 + k]);
    ApplyNext(l, im, ws, k, now);
  }

  lemma RecoveryGoesOn<D>(l: Layout, im: Image<D>, ws: seq<Write<D>>, t: State<D>, t': State<D>, k: nat)
    requires RecoveryAt(l, im, ws, t, k) && k < |im.header| && Sound(l, im) && ws == RecoveryWrites(l, im)
    requires Enabled(l, t, RecoverStep) && t' == Next(l, t, RecoverStep)
    ensures RecoveryAt(l, im, ws, t', k + 1) && t'.ops == t.ops
  {
    RecoveryWrite(l, im, ws, t.im, k);
  }

  lemma {:induction false} RecoveryImages<D>(l: Layout, s: State<D>, k: nat) returns (ss: seq<State<D>>)
    requires Inv(l, s) && s.phase.Down? && k <= |s.im.header|
    ensures |ss| == k + 2 && ss[0] == s && RecoverRun(l, ss)
    ensures Inv(l, ss[k + 1]) && RecoveryAt(l, s.im, RecoveryWrites(l, s.im), ss[k + 1], k) && ss[k + 1].ops == s.ops
    decreases k
  {
    if k == 0 {
      NextKeeps(l, s, RecoverStep);
      ss := [s, Next(l, s, RecoverStep)];
    } else {
      ss := RecoveryImages(l, s, k - 1);
      var t := Next(l, ss[k], RecoverStep);
      RecoveryGoesOn(l, s.im, RecoveryWrites(l, s.im), ss[k], t, k - 1);
      NextKeeps(l, ss[k], RecoverStep);
      OneMoreRecovered(l, ss, t);
      ss := ss + [t];
    }
  }

  /** The system runs again, on image im. */
  ghost predicate RunsOn<D>(l: Layout, t: State<D>, im: Image<D>, ops: seq<Op>) {
    && Inv(l, t) && t.phase.Running? && t.lh == [] && t.ops == ops && t.im == im && t.view == im.blocks
  }

  lemma RecoveryLast<D>(l: Layout, im: Image<D>, ws: seq<Write<D>>, t: State<D>)
    requires Inv(l, t) && RecoveryAt(l, im, ws, t, |im.header|) && ws == RecoveryWrites(l, im)
    ensures Enabled(l, t, RecoverStep)
    ensures RunsOn(l, Next(l, t, RecoverStep), Apply(l, im, ws), t.ops)
  {
    NextKeeps(l, t, RecoverStep);
    ApplyNext(l, im, ws, |im.header|, t.im);
    assert ws[..|im.header| + 1] == ws;
  }

  /** The machine's recovery: the writes of RecoveryWrites, and the system runs. */
  lemma RecoverWhole<D>(l: Layout, s: State<D>) returns (ss: seq<State<D>>)
    requires Inv(l, s) && s.phase.Down?
    ensures RecoverRun(l, ss) && ss[0] == s
    ensures RunsOn(l, ss[|ss| - 1], Apply(l, s.im, RecoveryWrites(l, s.im)), s.ops)
  {
    var path := RecoveryImages(l, s, |s.im.header|);
    var t := path[|path| - 1];
    RecoveryLast(l, s.im, RecoveryWrites(l, s.im), t);
    OneMoreRecovered(l, path, Next(l, t, RecoverStep));
    ss := path + [Next(l, t, RecoverStep)];
  }

  /** The disk after the class's recovery. */
  lemma Recovered(l: Layout, im: Image<Data>, a: B.Flat) returns (b: B.Flat)
    requires L.Matches(l, im, a.view) && Sound(l, im) && a.view == a.disk && |a.pins| == |a.view|
    ensures L.Fitting(l, a, im.header) && b == L.AfterFinish(l, a, im.header)
    ensures L.Matches(l, Apply(l, im, RecoveryWrites(l, im)), b.disk) && b.view == b.disk
  {
    b := L.AfterFinish(l, a, im.header);
    var k, bs := |im.header| + 1, im.header;
    L.RecoveryOnDisk(l, im, a.view, k);
    var ws, rs := L.FinishTrace(l, a.view, bs), RecoveryWrites(l, im);
    assert ws[..k] == ws && rs[..k] == rs;
    var w := L.InstallTrace(l, a.view, bs, |bs|);
    L.PlayOne(a.view, w, B.Write(l.start, L.PutHeader(L.Play(a.view, w)[l.start], [])));
  }

  /** A cache that nobody uses reads as the disk. */
  lemma Unused(bc: B.Bcache)
    requires bc.Valid() && bc.abs.held == map[] && L.AllUnpinned(bc.abs)
    ensures bc.abs.view == bc.abs.disk
  {
    forall n | 0 <= n < |bc.abs.disk| ensures bc.abs.view[n] == bc.abs.disk[n] {
      B.Clean(bc.abs, bc.cache, n);
    }
  }

  lemma StillUnpinned(l: Layout, a: B.Flat, bs: seq<nat>)
    requires L.Fitting(l, a, bs) && L.AllUnpinned(a)
    ensures L.AllUnpinned(L.AfterFinish(l, a, bs))
  {
    forall n | 0 <= n < |a.pins| ensures L.Unpinned(a.pins, bs, |bs|)[n] == 0 {
      L.UnpinnedAt(a.pins, bs, |bs|, n);
    }
  }

  lemma ShownRecovered(l: Layout, b: B.Flat, t: State<Data>, im: Image<Data>, ops: seq<Op>)
    requires RunsOn(l, t, im, ops) && AllIdle(ops) && L.Matches(l, im, b.disk) && b.view == b.disk
    ensures Shown(l, b, [], 0, t, -1)
  {
    Bounds(ops);
  }

  /** The log after recovery, on a cache that nobody uses. */
  ghost predicate UnusedLog(l: Layout, b: B.Flat, m: nat) {
    && |b.disk| == m && l.Fits(|b.disk|) && L.LogUnpinned(l, b) && L.Pinned(b, []) && L.OnlyPinned(b, [])
  }

  /** Recovery of a disk, by the machine and by the class. */
  lemma RecoverBoth(l: Layout, s: State<Data>, a: B.Flat) returns (ss: seq<State<Data>>, b: B.Flat)
    requires Inv(l, s) && s.phase.Down? && L.Matches(l, s.im, a.disk) && a.view == a.disk && |a.pins| == |a.view|
    requires L.AllUnpinned(a)
    ensures L.Fitting(l, a, s.im.header) && b == L.AfterFinish(l, a, s.im.header) && L.AllUnpinned(b)
    ensures RecoverRun(l, ss) && ss[0] == s && Shown(l, b, [], 0, ss[|ss| - 1], -1) && UnusedLog(l, b, |a.disk|)
  {
    ss := RecoverWhole(l, s);
    b := Recovered(l, s.im, a);
    StillUnpinned(l, a, s.im.header);
    ShownRecovered(l, b, ss[|ss| - 1], Apply(l, s.im, RecoveryWrites(l, s.im)), s.ops);
  }

  /** recover_from_log at boot is the machine's recovery, from the crash to the running system. */
  method Recover(lg: L.Log, ghost s: State<Data>) returns (ok: bool, ghost ss: seq<State<Data>>)
    requires lg.bc.Valid() && lg.bc.abs.held == map[] && L.AllUnpinned(lg.bc.abs) && |lg.block| == LOGSIZE
    requires |lg.bc.abs.disk| <= WORD_LIMIT && lg.outstanding == 0 && !lg.committing
    requires Inv(lg.l, s) && s.phase.Down? && L.Matches(lg.l, s.im, lg.bc.abs.disk)
    modifies lg, lg.bc
    ensures ok && RecoverRun(lg.l, ss) && ss[0] == s && Stands(lg, ss[|ss| - 1])
  {
    Unused(lg.bc);
    ghost var b;
    ss, b := RecoverBoth(lg.l, s, lg.bc.abs);
    ok := lg.RecoverFromLog(s.im);
    assert lg.bc.abs == b && lg.Lh() == [];
    assert lg.Ready();
  }
}
