/**
 The buffer cache over every interleaving (kernel/bio.c): any number of uses of
 buffers are under way at once, each between the bget and the brelse of some
 process, and every critical section, sleep-lock operation and disk transfer is
 one step. bget may recycle any unused buffer.

 In every run, buffers plus disk behave as one flat map of blocks.
 */
module CacheProtocol {
  import opened Common

  datatype Buf<D> = Buf(valid: bool, block: Option<nat>, refcnt: nat, data: D)

  /** How far one use of a buffer has come. */
  datatype Use =
    | Out
    | Waiting(b: nat)   // bget has counted the use; the lock is not held
    | Holding(b: nat)
    | Leaving(b: nat)   // brelse has released the lock, not yet the count
  {
    predicate Refers(c: nat) { !Out? && b == c }
  }

  datatype State<D> = State(bufs: seq<Buf<D>>, disk: seq<D>, uses: seq<Use>, pins: seq<nat>)

  datatype Event<D> =
    | Hit(u: nat, n: nat, b: nat)
    | Recycle(u: nat, n: nat, b: nat)
    | Lock(u: nat)
    | Load(u: nat)
    | Change(u: nat, data: D)
    | WriteBack(u: nat)
    | Pin(u: nat)
    | Unpin(u: nat)
    | Unlock(u: nat)
    | Drop(u: nat)

  /** The buffer of block n is b. */
  ghost predicate Caches<D>(s: State<D>, b: nat, n: nat)
    requires b < |s.bufs|
  {
    s.bufs[b].block == Some(n)
  }

  ghost predicate Holds<D>(s: State<D>, u: nat)
  {
    u < |s.uses| && s.uses[u].Holding? && s.uses[u].b < |s.bufs| && s.bufs[s.uses[u].b].block.Some?
    && s.bufs[s.uses[u].b].block.value < |s.disk| && s.uses[u].b < |s.pins|
  }

  /** The filled buffer b is pinned, or its data is on disk. */
  ghost predicate Safe<D>(s: State<D>, b: nat)
    requires b < |s.bufs| && b < |s.pins| && s.bufs[b].block.Some? && s.bufs[b].block.value < |s.disk|
  {
    s.bufs[b].valid ==> s.pins[b] > 0 || s.bufs[b].data == s.disk[s.bufs[b].block.value]
  }

  /**
   When a step is possible. Safe is what a caller of the cache promises: what it
   changed is written or pinned before brelse.
   */
  ghost predicate Enabled<D>(s: State<D>, e: Event<D>) {
    match e
    case Hit(u, n, b) => u < |s.uses| && s.uses[u].Out? && b < |s.bufs| && Caches(s, b, n)
    case Recycle(u, n, b) =>
      && u < |s.uses| && s.uses[u].Out? && b < |s.bufs| && n < |s.disk|
      && (forall c :: 0 <= c < |s.bufs| ==> !Caches(s, c, n)) && s.bufs[b].refcnt == 0
    case Lock(u) =>
      u < |s.uses| && s.uses[u].Waiting? && forall v :: 0 <= v < |s.uses| ==>
        !(s.uses[v].Holding? && s.uses[v].b == s.uses[u].b)
    case Load(u) => Holds(s, u) && !s.bufs[s.uses[u].b].valid
    case Change(u, _) => Holds(s, u) && s.bufs[s.uses[u].b].valid
    case WriteBack(u) => Holds(s, u) && s.bufs[s.uses[u].b].valid
    case Pin(u) => Holds(s, u) && s.bufs[s.uses[u].b].valid
    case Unpin(u) => Holds(s, u) && s.pins[s.uses[u].b] > 0 && s.bufs[s.uses[u].b].refcnt > 0
    case Unlock(u) => Holds(s, u) && Safe(s, s.uses[u].b)
    case Drop(u) => u < |s.uses| && s.uses[u].Leaving? && s.uses[u].b < |s.bufs| && s.bufs[s.uses[u].b].refcnt > 0
  }

  ghost function Next<D>(s: State<D>, e: Event<D>): State<D>
    requires Enabled(s, e)
  {
    match e
    case Hit(u, n, b) =>
      s.(bufs := s.bufs[b := s.bufs[b].(refcnt := s.bufs[b].refcnt + 1)], uses := s.uses[u := Waiting(b)])
    case Recycle(u, n, b) =>
      s.(bufs := s.bufs[b := Buf(false, Some(n), 1, s.bufs[b].data)], uses := s.uses[u := Waiting(b)])
    case Lock(u) => s.(uses := s.uses[u := Holding(s.uses[u].b)])
    case Load(u) =>
      var b := s.uses[u].b;
      s.(bufs := s.bufs[b := s.bufs[b].(valid := true, data := s.disk[s.bufs[b].block.value])])
    case Change(u, data) =>
      var b := s.uses[u].b;
      s.(bufs := s.bufs[b := s.bufs[b].(data := data)])
    case WriteBack(u) =>
      var b := s.uses[u].b;
      s.(disk := s.disk[s.bufs[b].block.value := s.bufs[b].data])
    case Pin(u) =>
      var b := s.uses[u].b;
      s.(bufs := s.bufs[b := s.bufs[b].(refcnt := s.bufs[b].refcnt + 1)], pins := s.pins[b := s.pins[b] + 1])
    case Unpin(u) =>
      var b := s.uses[u].b;
      s.(bufs := s.bufs[b := s.bufs[b].(refcnt := s.bufs[b].refcnt - 1)], pins := s.pins[b := s.pins[b] - 1])
    case Unlock(u) => s.(uses := s.uses[u := Leaving(s.uses[u].b)])
    case Drop(u) =>
      var b := s.uses[u].b;
      s.(bufs := s.bufs[b := s.bufs[b].(refcnt := s.bufs[b].refcnt - 1)], uses := s.uses[u := Out])
  }

  // ---- the invariant ----

  /** The number of uses that refer to buffer b. */
  ghost function Refs(uses: seq<Use>, b: nat): nat {
    if |uses| == 0 then 0
    else Refs(uses[..|uses| - 1], b) + if uses[|uses| - 1].Refers(b) then 1 else 0
  }

  ghost predicate HeldBy(uses: seq<Use>, u: nat, b: nat)
    requires u < |uses|
  {
    uses[u].Holding? && uses[u].b == b
  }

  /** Buffer b: its count, and that its data is on disk unless it is pinned or held. */
  ghost predicate BufOk<D>(s: State<D>, b: nat)
    requires b < |s.bufs| == |s.pins|
  {
    var f := s.bufs[b];
    && f.refcnt == s.pins[b] + Refs(s.uses, b)
    && (f.block == None ==> !f.valid && f.refcnt == 0)
    && (f.block.Some? ==> f.block.value < |s.disk|)
    && (!f.valid ==> s.pins[b] == 0)
    && (f.valid && s.pins[b] == 0 ==>
      f.data == s.disk[f.block.value] || exists u :: 0 <= u < |s.uses| && HeldBy(s.uses, u, b))
  }

  ghost predicate UseOk<D>(s: State<D>, u: nat)
    requires u < |s.uses|
  {
    !s.uses[u].Out? ==> s.uses[u].b < |s.bufs|
  }

  ghost predicate Inv<D>(s: State<D>) {
    && |s.pins| == |s.bufs|
    && (forall b, c, n :: 0 <= b < |s.bufs| && 0 <= c < |s.bufs| && Caches(s, b, n) && Caches(s, c, n) ==> b == c)
    && (forall u, v, b :: 0 <= u < |s.uses| && 0 <= v < |s.uses| && HeldBy(s.uses, u, b) && HeldBy(s.uses, v, b) ==>
        u == v)
    && (forall b :: 0 <= b < |s.bufs| ==> BufOk(s, b))
    && (forall u :: 0 <= u < |s.uses| ==> UseOk(s, u))
  }

  lemma {:induction false} RefsUpdate(uses: seq<Use>, u: nat, x: Use, b: nat)
    requires u < |uses|
    ensures Refs(uses[u := x], b) ==
      Refs(uses, b) - (if uses[u].Refers(b) then 1 else 0) + (if x.Refers(b) then 1 else 0)
    decreases |uses|
  {
    var k := |uses| - 1;
    if u < k {
      assert uses[u := x][..k] == uses[..k][u := x];
      RefsUpdate(uses[..k], u, x, b);
    } else {
      assert uses[u := x][..k] == uses[..k];
    }
  }

  lemma {:induction false} RefsPositive(uses: seq<Use>, u: nat, b: nat)
    requires u < |uses| && uses[u].Refers(b)
    ensures Refs(uses, b) >= 1
    decreases |uses|
  {
    if u < |uses| - 1 {
      RefsPositive(uses[..|uses| - 1], u, b);
    }
  }

  // ---- the flat map ----

  /** What block n reads as: its valid buffer's data, or the disk's. */
  ghost function ViewAt<D>(s: State<D>, n: nat): D
    requires n < |s.disk|
  {
    if b: nat :| b < |s.bufs| && Caches(s, b, n) && s.bufs[b].valid then s.bufs[b].data else s.disk[n]
  }

  lemma ViewIs<D>(s: State<D>, b: nat, n: nat)
    requires Inv(s) && b < |s.bufs| && Caches(s, b, n)
    ensures n < |s.disk| && ViewAt(s, n) == if s.bufs[b].valid then s.bufs[b].data else s.disk[n]
  {
    assert BufOk(s, b);
  }

  lemma ViewIsDisk<D>(s: State<D>, n: nat)
    requires n < |s.disk| && forall b :: 0 <= b < |s.bufs| ==> !Caches(s, b, n)
    ensures ViewAt(s, n) == s.disk[n]
  {
  }

  /** Steps that keep which block each buffer is for, its data and the disk keep the view. */
  lemma SameView<D>(s: State<D>, s': State<D>, n: nat)
    requires Inv(s) && Inv(s') && s'.disk == s.disk && |s'.bufs| == |s.bufs| && n < |s.disk|
    requires forall b :: 0 <= b < |s.bufs| ==>
      s'.bufs[b].block == s.bufs[b].block && s'.bufs[b].valid == s.bufs[b].valid && s'.bufs[b].data == s.bufs[b].data
    ensures ViewAt(s', n) == ViewAt(s, n)
  {
    assert forall b :: 0 <= b < |s.bufs| ==> Caches(s', b, n) == Caches(s, b, n);
    if b :| 0 <= b < |s.bufs| && Caches(s, b, n) {
      ViewIs(s, b, n);
      ViewIs(s', b, n);
    } else {
      ViewIsDisk(s, n);
      ViewIsDisk(s', n);
    }
  }

  // ---- one step ----

  /** s' differs from s only in use u, buffer b and its pins, and the disk block that b is for. */
  ghost predicate Near<D>(s: State<D>, s': State<D>, u: nat, b: nat) {
    && |s'.uses| == |s.uses| && |s'.bufs| == |s.bufs| == |s'.pins| == |s.pins| && |s'.disk| == |s.disk|
    && u < |s.uses| && b < |s.bufs|
    && (forall v :: 0 <= v < |s.uses| && v != u ==> s'.uses[v] == s.uses[v])
    && (forall c :: 0 <= c < |s.bufs| && c != b ==> s'.bufs[c] == s.bufs[c] && s'.pins[c] == s.pins[c])
    && (forall n :: 0 <= n < |s.disk| && !Caches(s, b, n) ==> s'.disk[n] == s.disk[n])
    && (s.uses[u].Out? || s.uses[u].b == b) && (s'.uses[u].Out? || s'.uses[u].b == b)
  }

  lemma OtherBuf<D>(s: State<D>, s': State<D>, u: nat, b: nat, c: nat)
    requires Inv(s) && Near(s, s', u, b) && c < |s.bufs| && c != b
    ensures BufOk(s', c)
  {
    assert BufOk(s, c);
    assert s'.uses == s.uses[u := s'.uses[u]];
    RefsUpdate(s.uses, u, s'.uses[u], c);
    if v :| 0 <= v < |s.uses| && HeldBy(s.uses, v, c) {
      assert HeldBy(s'.uses, v, c);
    }
    assert s.bufs[c].block.Some? ==> Caches(s, c, s.bufs[c].block.value);
  }

  /** A step near u and b keeps the invariant if b and u are in order afterwards. */
  lemma NearKeeps<D>(s: State<D>, s': State<D>, u: nat, b: nat)
    requires Inv(s) && Near(s, s', u, b) && BufOk(s', b) && UseOk(s', u)
    requires forall c, n :: 0 <= c < |s.bufs| && c != b && Caches(s, c, n) ==> !Caches(s', b, n)
    requires s'.uses[u].Holding? ==> forall v :: 0 <= v < |s.uses| && v != u ==> !HeldBy(s.uses, v, b)
    ensures Inv(s')
  {
    forall c | 0 <= c < |s.bufs| ensures BufOk(s', c) {
      if c != b { OtherBuf(s, s', u, b, c); }
    }
    forall v | 0 <= v < |s.uses| ensures UseOk(s', v) {
      assert UseOk(s, v);
    }
    forall v, w, c | 0 <= v < |s.uses| && 0 <= w < |s.uses| && HeldBy(s'.uses, v, c) && HeldBy(s'.uses, w, c)
      ensures v == w {
      assert v != u ==> HeldBy(s.uses, v, c);
      assert w != u ==> HeldBy(s.uses, w, c);
    }
    forall c, d, n | 0 <= c < |s.bufs| && 0 <= d < |s.bufs| && Caches(s', c, n) && Caches(s', d, n) ensures c == d {
      assert c != b ==> Caches(s, c, n);
      assert d != b ==> Caches(s, d, n);
    }
  }

  /** The holder of a buffer is the only one. */
  lemma OneHolder<D>(s: State<D>, u: nat)
    requires Inv(s) && u < |s.uses| && s.uses[u].Holding?
    ensures forall v :: 0 <= v < |s.uses| && v != u ==> !HeldBy(s.uses, v, s.uses[u].b)
  {
    assert HeldBy(s.uses, u, s.uses[u].b);
  }

  lemma GetKeeps<D>(s: State<D>, e: Event<D>)
    requires Inv(s) && Enabled(s, e) && (e.Hit? || e.Recycle?)
    ensures Inv(Next(s, e)) && Near(s, Next(s, e), e.u, e.b)
  {
    var s' := Next(s, e);
    assert BufOk(s, e.b);
    RefsUpdate(s.uses, e.u, Waiting(e.b), e.b);
    if v :| 0 <= v < |s.uses| && HeldBy(s.uses, v, e.b) {
      RefsPositive(s.uses, v, e.b);
      assert HeldBy(s'.uses, v, e.b);
    }
    assert BufOk(s', e.b);
    NearKeeps(s, s', e.u, e.b);
  }

  /** Steps of a use that has a buffer. */
  lemma UseNear<D>(s: State<D>, e: Event<D>)
    requires Inv(s) && Enabled(s, e) && !e.Hit? && !e.Recycle?
    ensures s.uses[e.u].b < |s.bufs| && Near(s, Next(s, e), e.u, s.uses[e.u].b)
    ensures UseOk(Next(s, e), e.u)
    ensures s.uses[e.u].Holding? ==> forall v :: 0 <= v < |s.uses| && v != e.u ==> !HeldBy(s.uses, v, s.uses[e.u].b)
  {
    assert UseOk(s, e.u);
    if s.uses[e.u].Holding? {
      OneHolder(s, e.u);
    }
  }

  lemma UseBufOk<D>(s: State<D>, e: Event<D>)
    requires Inv(s) && Enabled(s, e) && !e.Hit? && !e.Recycle?
    ensures s.uses[e.u].b < |s.bufs| && BufOk(Next(s, e), s.uses[e.u].b)
  {
    UseNear(s, e);
    var s', u, b := Next(s, e), e.u, s.uses[e.u].b;
    assert BufOk(s, b);
    assert s'.uses == s.uses[u := s'.uses[u]];
    RefsUpdate(s.uses, u, s'.uses[u], b);
    if v :| 0 <= v < |s.uses| && HeldBy(s.uses, v, b) && v != u {
      assert HeldBy(s'.uses, v, b);
    }
    assert s'.uses[u].Holding? ==> HeldBy(s'.uses, u, b);
  }

  lemma UseKeeps<D>(s: State<D>, e: Event<D>)
    requires Inv(s) && Enabled(s, e) && !e.Hit? && !e.Recycle?
    ensures Inv(Next(s, e))
  {
    UseNear(s, e);
    UseBufOk(s, e);
    var s', b := Next(s, e), s.uses[e.u].b;
    assert forall n :: Caches(s', b, n) == Caches(s, b, n);
    NearKeeps(s, s', e.u, b);
  }

  lemma NextKeeps<D>(s: State<D>, e: Event<D>)
    requires Inv(s) && Enabled(s, e)
    ensures Inv(Next(s, e)) && |Next(s, e).disk| == |s.disk|
  {
    if e.Hit? || e.Recycle? {
      GetKeeps(s, e);
    } else {
      UseKeeps(s, e);
    }
  }

  /**
   Every step but a change leaves the flat map as it was: recycling a buffer,
   reading and writing the disk, locks and pins are invisible. A change by the
   holder of a buffer sets its block.
   */
  lemma NextView<D>(s: State<D>, e: Event<D>, n: nat)
    requires Inv(s) && Enabled(s, e) && n < |s.disk|
    ensures Inv(Next(s, e)) && n < |Next(s, e).disk|
    ensures ViewAt(Next(s, e), n) ==
      if e.Change? && Caches(s, s.uses[e.u].b, n) then e.data else ViewAt(s, n)
  {
    NextKeeps(s, e);
    var s' := Next(s, e);
    if e.Recycle? {
      RecycleView(s, e, n);
    } else if e.Load? || e.Change? || e.WriteBack? {
      TransferView(s, e, n);
    } else {
      SameView(s, s', n);
    }
  }

  lemma RecycleView<D>(s: State<D>, e: Event<D>, n: nat)
    requires Inv(s) && Enabled(s, e) && e.Recycle? && Inv(Next(s, e)) && n < |s.disk|
    ensures ViewAt(Next(s, e), n) == ViewAt(s, n)
  {
    var s', b := Next(s, e), e.b;
    assert BufOk(s, b);
    if v :| 0 <= v < |s.uses| && HeldBy(s.uses, v, b) {
      RefsPositive(s.uses, v, b);
    }
    if n == e.n {
      ViewIs(s', b, n);
      ViewIsDisk(s, n);
    } else if c :| 0 <= c < |s.bufs| && Caches(s, c, n) {
      ViewIs(s, c, n);
      if c == b {
        assert forall d :: 0 <= d < |s.bufs| ==> (Caches(s', d, n) ==> Caches(s, d, n) && d != b);
        ViewIsDisk(s', n);
      } else {
        ViewIs(s', c, n);
      }
    } else {
      forall d | 0 <= d < |s.bufs| ensures !Caches(s', d, n) {
        assert !Caches(s, d, n);
      }
      ViewIsDisk(s, n);
      ViewIsDisk(s', n);
    }
  }

  lemma TransferView<D>(s: State<D>, e: Event<D>, n: nat)
    requires Inv(s) && Enabled(s, e) && (e.Load? || e.Change? || e.WriteBack?) && Inv(Next(s, e)) && n < |s.disk|
    ensures ViewAt(Next(s, e), n) == if e.Change? && Caches(s, s.uses[e.u].b, n) then e.data else ViewAt(s, n)
  {
    var s', b := Next(s, e), s.uses[e.u].b;
    assert forall c :: 0 <= c < |s.bufs| ==> Caches(s', c, n) == Caches(s, c, n);
    if c :| 0 <= c < |s.bufs| && Caches(s, c, n) {
      ViewIs(s, c, n);
      ViewIs(s', c, n);
      assert c != b ==> !Caches(s, b, n);
    } else {
      ViewIsDisk(s, n);
      ViewIsDisk(s', n);
    }
  }

  // ---- whole runs ----

  ghost predicate Initial<D>(s: State<D>) {
    && |s.pins| == |s.bufs|
    && (forall b :: 0 <= b < |s.bufs| ==>
        s.bufs[b].block == None && !s.bufs[b].valid && s.bufs[b].refcnt == 0 && s.pins[b] == 0)
    && (forall u :: 0 <= u < |s.uses| ==> s.uses[u].Out?)
  }

  ghost predicate Run<D>(ss: seq<State<D>>, es: seq<Event<D>>) {
    && |ss| == |es| + 1 && Initial(ss[0])
    && forall i :: 0 <= i < |es| ==> Enabled(ss[i], es[i]) && ss[i + 1] == Next(ss[i], es[i])
  }

  /** The steps es lead from s to t. */
  ghost predicate Steps<D>(s: State<D>, es: seq<Event<D>>, t: State<D>)
    decreases |es|
  {
    if es == [] then s == t else Enabled(s, es[0]) && Steps(Next(s, es[0]), es[1..], t)
  }

  lemma OneStep<D>(s: State<D>, e: Event<D>)
    requires Enabled(s, e)
    ensures Steps(s, [e], Next(s, e))
  {
    assert [e][1..] == [];
  }

  lemma {:induction false} StepsJoin<D>(s: State<D>, es: seq<Event<D>>, t: State<D>, fs: seq<Event<D>>, v: State<D>)
    requires Steps(s, es, t) && Steps(t, fs, v)
    ensures Steps(s, es + fs, v)
    decreases |es|
  {
    if es == [] {
      assert es + fs == fs;
    } else {
      StepsJoin(Next(s, es[0]), es[1..], t, fs, v);
      assert (es + fs)[1..] == es[1..] + fs;
    }
  }

  /** brelse of a safe buffer: both of its steps can be taken. */
  lemma LeaveSteps<D>(s: State<D>, u: nat)
    requires Holds(s, u) && Safe(s, s.uses[u].b) && s.bufs[s.uses[u].b].refcnt > 0
    ensures
      var b := s.uses[u].b;
      Steps(s, [Unlock(u), Drop(u)],
            s.(bufs := s.bufs[b := s.bufs[b].(refcnt := s.bufs[b].refcnt - 1)], uses := s.uses[u := Out]))
  {
    var e: Event<D>, f: Event<D> := Unlock(u), Drop(u);
    var t := Next(s, e);
    OneStep(s, e);
    OneStep(t, f);
    assert Next(t, f).uses == s.uses[u := Out];
    StepsJoin(s, [e], t, [f], Next(t, f));
    assert [e] + [f] == [e, f];
  }

  /** s and the states that es leads through. */
  ghost function Trace<D>(s: State<D>, es: seq<Event<D>>, t: State<D>): (ss: seq<State<D>>)
    requires Steps(s, es, t)
    ensures |ss| == |es| + 1 && ss[0] == s && ss[|es|] == t
    ensures forall i :: 0 <= i < |es| ==> Enabled(ss[i], es[i]) && ss[i + 1] == Next(ss[i], es[i])
    decreases |es|
  {
    if es == [] then [s] else [s] + Trace(Next(s, es[0]), es[1..], t)
  }

  lemma {:induction false} NoRefs(uses: seq<Use>, b: nat)
    requires forall u :: 0 <= u < |uses| ==> uses[u].Out?
    ensures Refs(uses, b) == 0
    decreases |uses|
  {
    if |uses| > 0 {
      NoRefs(uses[..|uses| - 1], b);
    }
  }

  lemma {:induction false} RunKeeps<D>(ss: seq<State<D>>, es: seq<Event<D>>, i: nat)
    requires Run(ss, es) && i < |ss|
    ensures Inv(ss[i]) && |ss[i].disk| == |ss[0].disk|
  {
    if i == 0 {
      forall b | 0 <= b < |ss[0].bufs| ensures BufOk(ss[0], b) {
        NoRefs(ss[0].uses, b);
      }
    } else {
      RunKeeps(ss, es, i - 1);
      NextKeeps(ss[i - 1], es[i - 1]);
    }
  }

  /** The flat map that the run's changes make, starting from the disk. */
  ghost function Changed<D>(ss: seq<State<D>>, es: seq<Event<D>>, i: nat, n: nat): D
    requires Run(ss, es) && i <= |es| && n < |ss[0].disk|
  {
    if i == 0 then ss[0].disk[n]
    else if es[i - 1].Change? && Caches(ss[i - 1], ss[i - 1].uses[es[i - 1].u].b, n) then es[i - 1].data
    else Changed(ss, es, i - 1, n)
  }

  /**
   In every run, whoever holds the filled buffer of a block sees the latest
   change to that block, or the original disk contents if there was none.
   */
  lemma {:induction false} FlatMap<D>(ss: seq<State<D>>, es: seq<Event<D>>, i: nat, n: nat)
    requires Run(ss, es) && i <= |es| && n < |ss[0].disk|
    ensures Inv(ss[i]) && n < |ss[i].disk| && ViewAt(ss[i], n) == Changed(ss, es, i, n)
    ensures forall b :: 0 <= b < |ss[i].bufs| && Caches(ss[i], b, n) && ss[i].bufs[b].valid ==>
      ss[i].bufs[b].data == Changed(ss, es, i, n)
  {
    RunKeeps(ss, es, i);
    if i == 0 {
      ViewIsDisk(ss[0], n);
    } else {
      RunKeeps(ss, es, i - 1);
      FlatMap(ss, es, i - 1, n);
      NextView(ss[i - 1], es[i - 1], n);
    }
    forall b | 0 <= b < |ss[i].bufs| && Caches(ss[i], b, n) && ss[i].bufs[b].valid
      ensures ss[i].bufs[b].data == Changed(ss, es, i, n)
    {
      ViewIs(ss[i], b, n);
    }
  }

  /** A step leaves a pinned buffer with its block. */
  lemma PinnedStep<D>(s: State<D>, e: Event<D>, s': State<D>, b: nat)
    requires Inv(s) && Enabled(s, e) && s' == Next(s, e) && b < |s.bufs| && s.pins[b] > 0
    ensures |s'.bufs| == |s.bufs| && s'.bufs[b].block == s.bufs[b].block
  {
    assert BufOk(s, b);
  }

  lemma PinnedView<D>(s: State<D>, b: nat)
    requires Inv(s) && b < |s.bufs| && s.pins[b] > 0
    ensures
      var n := s.bufs[b].block;
      s.bufs[b].valid && n.Some? && n.value < |s.disk| && s.bufs[b].data == ViewAt(s, n.value)
  {
    assert BufOk(s, b);
    ViewIs(s, b, s.bufs[b].block.value);
  }

  /** Buffer b is pinned in every state. */
  ghost predicate Pinned<D>(ss: seq<State<D>>, b: nat) {
    forall k :: 0 <= k < |ss| ==> b < |ss[k].bufs| && b < |ss[k].pins| && ss[k].pins[b] > 0
  }

  lemma {:induction false} PinnedBlock<D>(ss: seq<State<D>>, es: seq<Event<D>>, i: nat, j: nat, b: nat)
    requires Run(ss, es) && i <= j < |ss| && Pinned(ss[i..j + 1], b)
    ensures b < |ss[j].bufs| == |ss[i].bufs| && ss[j].bufs[b].block == ss[i].bufs[b].block
  {
    assert ss[j] == ss[i..j + 1][j - i];
    if i < j {
      assert ss[i..j] == ss[i..j + 1][..j - i] && ss[j - 1] == ss[i..j + 1][j - 1 - i];
      PinnedBlock(ss, es, i, j - 1, b);
      RunKeeps(ss, es, j - 1);
      PinnedStep(ss[j - 1], es[j - 1], ss[j], b);
    }
  }

  /**
   In every run, from bpin to bunpin the buffer holds its block: no recycling takes it,
   and until the block is unpinned its data is what the flat map holds there, also
   where the disk does not have it yet.
   */
  lemma PinnedStays<D>(ss: seq<State<D>>, es: seq<Event<D>>, i: nat, j: nat, b: nat)
    requires Run(ss, es) && i <= j < |ss| && Pinned(ss[i..j + 1], b)
    ensures b < |ss[j].bufs| == |ss[i].bufs| && ss[j].bufs[b].block == ss[i].bufs[b].block
    ensures
      var n := ss[i].bufs[b].block;
      n.Some? && n.value < |ss[j].disk| && ss[j].bufs[b].valid && ss[j].bufs[b].data == ViewAt(ss[j], n.value)
  {
    PinnedBlock(ss, es, i, j, b);
    RunKeeps(ss, es, j);
    assert ss[j] == ss[i..j + 1][j - i];
    PinnedView(ss[j], b);
  }
}
