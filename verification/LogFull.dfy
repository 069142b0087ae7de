/**
 The log can fill the cache (kernel/log.c:126-140, kernel/bio.c:77-88): NBUF and LOGSIZE
 are both 30, begin_op admits three operations of MAXOPBLOCKS blocks each, and every
 block in the log is pinned. When the last of them ends, write_log finds no buffer for
 the log blocks, and bget panics. Log.EndOp states exactly when it does not.
 */
module LogFull {
  import opened Common
  import opened LogProtocol
  import opened Recovery
  import B = Bio
  import L = Log

  ghost predicate Reached<D(!new)>(l: Layout, s: State<D>, t: State<D>) {
    exists ss, es :: Run(l, ss, es) && ss[0] == s && ss[|es|] == t
  }

  lemma ReachedSelf<D(!new)>(l: Layout, s: State<D>)
    requires Initial(l, s)
    ensures Reached(l, s, s)
  {
    var es: seq<Event<D>> := [];
    assert Run(l, [s], es);
  }

  lemma ReachedNext<D(!new)>(l: Layout, s: State<D>, t: State<D>, e: Event<D>)
    requires Reached(l, s, t) && Enabled(l, t, e)
    ensures Reached(l, s, Next(l, t, e))
  {
    var ss, es :| Run(l, ss, es) && ss[0] == s && ss[|es|] == t;
    assert Run(l, ss + [Next(l, t, e)], es + [e]);
  }

  lemma Busy(ops: seq<Op>, p: nat)
    requires p < |ops| && ops[p].Active? && InBudget(ops)
    ensures Outstanding(ops) >= 1
  {
    Bounds(ops);
  }

  /** The operations after the first n have begun. */
  ghost function Begun(ops: seq<Op>, n: nat): (r: seq<Op>)
    requires n <= |ops|
    ensures |r| == |ops|
  {
    if n == 0 then ops else Begun(ops, n - 1)[n - 1 := Active(0)]
  }

  lemma {:induction false} BegunAt(ops: seq<Op>, n: nat)
    requires n <= |ops| && AllIdle(ops)
    ensures Outstanding(Begun(ops, n)) == n && InBudget(Begun(ops, n))
    ensures forall p :: 0 <= p < |ops| ==> Begun(ops, n)[p] == if p < n then Active(0) else Idle
  {
    if n == 0 {
      Bounds(ops);
    } else {
      BegunAt(ops, n - 1);
      UpdateOps(Begun(ops, n - 1), n - 1, Active(0));
    }
  }

  lemma {:induction false} BeginAll<D(!new)>(l: Layout, s: State<D>, n: nat)
    requires Initial(l, s) && n <= 3 <= |s.ops|
    ensures Reached(l, s, s.(ops := Begun(s.ops, n)))
  {
    if n == 0 {
      ReachedSelf(l, s);
    } else {
      BeginAll(l, s, n - 1);
      BegunAt(s.ops, n - 1);
      ReachedNext(l, s, s.(ops := Begun(s.ops, n - 1)), BeginOp(n - 1));
    }
  }

  /** t with the first n blocks of bs in the log, the last k of them by operation p. */
  ghost function Logged<D(!new)>(t: State<D>, bs: seq<nat>, p: nat, n: nat, k: nat): State<D>
    requires p < |t.ops| && n <= |bs|
  {
    t.(lh := bs[..n], ops := t.ops[p := Active(k)])
  }

  ghost predicate CanFill<D(!new)>(l: Layout, s: State<D>, bs: seq<nat>) {
    Initial(l, s) && |s.ops| >= 3 && |bs| == LOGSIZE && NoRepeats(bs) && l.Home(|s.view|, bs)
  }

  /** One log_write of a block that is not in the log yet. */
  lemma FillStep<D(!new)>(l: Layout, s: State<D>, bs: seq<nat>, u: State<D>, p: nat, n: nat)
    requires CanFill(l, s, bs) && Reached(l, s, u) && InBudget(u.ops) && n < LOGSIZE
    requires u.phase.Running? && u.view == s.view && p < |u.ops| && u.ops[p].Active? && u.ops[p].used < MAXOPBLOCKS
      && u.lh == bs[..n]
    ensures Reached(l, s, u.(lh := bs[..n + 1], ops := u.ops[p := Active(u.ops[p].used + 1)]))
  {
    Busy(u.ops, p);
    assert bs[n] !in u.lh;
    var e := LogWrite(p, bs[n], u.view[bs[n]]);
    ReachedNext(l, s, u, e);
    assert bs[..n] + [bs[n]] == bs[..n + 1];
    assert u.view[bs[n] := u.view[bs[n]]] == u.view;
  }

  /** Operation p, with nothing in its part of the log yet. */
  ghost predicate Fresh<D(!new)>(s: State<D>, bs: seq<nat>, t: State<D>, p: nat, n: nat) {
    && n + MAXOPBLOCKS <= LOGSIZE == |bs| && InBudget(t.ops) && p < |t.ops|
    && t.phase.Running? && t.view == s.view && t.ops[p] == Active(0) && t.lh == bs[..n]
  }

  lemma FillMore<D(!new)>(l: Layout, s: State<D>, bs: seq<nat>, t: State<D>, p: nat, n: nat, k: nat)
    requires CanFill(l, s, bs) && Fresh(s, bs, t, p, n) && k < MAXOPBLOCKS && Reached(l, s, Logged(t, bs, p, n + k, k))
    ensures Reached(l, s, Logged(t, bs, p, n + k + 1, k + 1))
  {
    var u := Logged(t, bs, p, n + k, k);
    FillStep(l, s, bs, u, p, n + k);
    assert u.ops[p := Active(k + 1)] == t.ops[p := Active(k + 1)];
  }

  /** Operation p adds its MAXOPBLOCKS blocks. */
  lemma {:induction false} FillOne<D(!new)>(l: Layout, s: State<D>, bs: seq<nat>, t: State<D>, p: nat, n: nat, k: nat)
    requires CanFill(l, s, bs) && Fresh(s, bs, t, p, n) && k <= MAXOPBLOCKS && Reached(l, s, t)
    ensures Reached(l, s, Logged(t, bs, p, n + k, k))
    decreases k
  {
    if k == 0 {
      assert Logged(t, bs, p, n, 0) == t;
    } else {
      FillOne(l, s, bs, t, p, n, k - 1);
      FillMore(l, s, bs, t, p, n, k - 1);
    }
  }

  /** All three operations have added their blocks: the log is full. */
  lemma FillAll<D(!new)>(l: Layout, s: State<D>, bs: seq<nat>) returns (t: State<D>)
    requires CanFill(l, s, bs)
    ensures Reached(l, s, t) && t.phase.Running? && t.lh == bs && |t.ops| == |s.ops| && InBudget(t.ops)
      && t.view == s.view
    ensures forall p :: 0 <= p < |t.ops| ==> t.ops[p] == if p < 3 then Active(MAXOPBLOCKS) else Idle
  {
    BeginAll(l, s, 3);
    BegunAt(s.ops, 3);
    t := s.(ops := Begun(s.ops, 3));
    var t1 := Logged(t, bs, 0, 10, 10);
    FillOne(l, s, bs, t, 0, 0, 10);
    var t2 := Logged(t1, bs, 1, 20, 10);
    FillOne(l, s, bs, t1, 1, 10, 10);
    FillOne(l, s, bs, t2, 2, 20, 10);
    t := Logged(t2, bs, 2, 30, 10);
    assert bs[..30] == bs;
  }

  /** The operations end, and the last one starts a commit of LOGSIZE blocks. */
  lemma EndAll<D(!new)>(l: Layout, s: State<D>, bs: seq<nat>) returns (u: State<D>)
    requires CanFill(l, s, bs)
    ensures Reached(l, s, u) && u.phase == WriteLog(0) && u.lh == bs
  {
    var t := FillAll(l, s, bs);
    Counts(t.ops);
    ReachedNext(l, s, t, EndOp(0));
    var t1 := Next(l, t, EndOp(0));
    ReachedNext(l, s, t1, EndOp(1));
    var t2 := Next(l, t1, EndOp(1));
    ReachedNext(l, s, t2, EndOp(2));
    u := Next(l, t2, EndOp(2));
  }

  lemma Counts(ops: seq<Op>)
    requires |ops| >= 3 && InBudget(ops) && forall p :: 0 <= p < |ops| ==> ops[p] == if p < 3 then Active(MAXOPBLOCKS)
      else Idle
    ensures Outstanding(ops[0 := Idle]) == 2 && Outstanding(ops[0 := Idle][1 := Idle]) == 1
    ensures Outstanding(ops[0 := Idle][1 := Idle][2 := Idle]) == 0
  {
    UpdateOps(ops, 0, Idle);
    UpdateOps(ops[0 := Idle], 1, Idle);
    UpdateOps(ops[0 := Idle][1 := Idle], 2, Idle);
    Bounds(ops[0 := Idle][1 := Idle][2 := Idle]);
  }

  /** A cache in which a full log is pinned has no free buffer. */
  lemma Starved(a: B.Flat, c: B.Cache, bs: seq<nat>)
    requires B.Represents(a, c) && L.Pinned(a, bs) && |bs| == LOGSIZE
    ensures |B.Busy(a)| >= B.NBUF && !a.free
  {
    B.FreeIff(a, c);
    L.SeqSize(bs);
    Fewer(L.Elements(bs), B.Busy(a));
  }

  /** Three operations that keep to MAXOPBLOCKS lead to a commit for which no cache has a free buffer. */
  lemma FullCommit<D(!new)>(l: Layout, s: State<D>, bs: seq<nat>)
    requires CanFill(l, s, bs)
    ensures exists ss: seq<State<D>>, es ::
      && Run(l, ss, es) && ss[0] == s && ss[|es|].phase == WriteLog(0) && ss[|es|].lh == bs
      && forall a: B.Flat, c: B.Cache :: B.Represents(a, c) && L.Pinned(a, ss[|es|].lh) ==> !a.free
  {
    var u := EndAll(l, s, bs);
    forall a: B.Flat, c: B.Cache | B.Represents(a, c) && L.Pinned(a, bs) ensures !a.free { Starved(a, c, bs); }
    var ss, es :| Run(l, ss, es) && ss[0] == s && ss[|es|] == u;
  }
}
