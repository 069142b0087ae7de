/**
 What a crash preserves (kernel/log.c). The on-disk log is a header block,
 which lists home block numbers, followed by one data block per listed number.

 Restored(l, im) is the state that recovery restores from disk image im: the
 home blocks overlaid with the logged ones. Every disk write of commit and of
 recovery leaves it alone, except the one header write that commits.

 A block is a value of any type D here, and the header block is the list that
 it encodes; Log.Matches relates both to the bytes on disk.
 */
module Recovery {
  const MAXOPBLOCKS := 10
  const LOGSIZE := 30

  /** log.start and log.size */
  datatype Layout = Layout(start: nat, size: nat) {
    predicate InLog(n: nat) { start <= n < start + size }

    /** The log lies on a disk of m blocks and has room for a header and LOGSIZE blocks. */
    predicate Fits(m: nat) { size > LOGSIZE && start + size <= m }

    /** bs are home blocks of a disk of m blocks. */
    ghost predicate Home(m: nat, bs: seq<nat>) {
      forall i :: 0 <= i < |bs| ==> bs[i] < m && !InLog(bs[i])
    }
  }

  datatype Image<D> = Image(header: seq<nat>, blocks: seq<D>)

  /** One disk write, of the header block or of any other block. */
  datatype Write<D> = Head(bs: seq<nat>) | Put(n: nat, data: D)

  ghost predicate Sound<D>(l: Layout, im: Image<D>) {
    l.Fits(|im.blocks|) && |im.header| <= LOGSIZE && l.Home(|im.blocks|, im.header)
  }

  /** The place of the last occurrence of n, or -1. */
  ghost function Last(bs: seq<nat>, n: nat): (i: int)
    ensures -1 <= i < |bs|
    ensures i >= 0 ==> bs[i] == n
    ensures forall j :: i < j < |bs| ==> bs[j] != n
  {
    if |bs| == 0 then -1
    else if bs[|bs| - 1] == n then |bs| - 1
    else Last(bs[..|bs| - 1], n)
  }

  /** Block n of d, or its latest logged copy if bs lists it. */
  ghost function Overlay<D>(l: Layout, d: seq<D>, bs: seq<nat>, n: nat): D
    requires l.Fits(|d|) && |bs| <= LOGSIZE && n < |d|
  {
    if Last(bs, n) >= 0 then d[l.start + 1 + Last(bs, n)] else d[n]
  }

  /** The state that recovery restores from im. */
  ghost function Restored<D>(l: Layout, im: Image<D>): map<nat, D>
    requires Sound(l, im)
  {
    map n: nat | n < |im.blocks| && !l.InLog(n) :: Overlay(l, im.blocks, im.header, n)
  }

  // ---- one write at a time ----

  ghost predicate Writable<D>(l: Layout, im: Image<D>, w: Write<D>) {
    match w
    case Head(bs) => |bs| <= LOGSIZE && l.Home(|im.blocks|, bs)
    case Put(n, _) => n < |im.blocks| && n != l.start
  }

  ghost function Step<D>(l: Layout, im: Image<D>, w: Write<D>): (r: Image<D>)
    requires Writable(l, im, w)
    ensures |r.blocks| == |im.blocks|
    ensures Sound(l, im) ==> Sound(l, r)
  {
    match w
    case Head(bs) => im.(header := bs)
    case Put(n, data) => im.(blocks := im.blocks[n := data])
  }

  /** Before the commit, with an empty header, log data blocks do not matter. */
  lemma LogWriteNeutral<D>(l: Layout, im: Image<D>, n: nat, x: D)
    requires Sound(l, im) && im.header == [] && l.start < n < l.start + l.size
    ensures Restored(l, Step(l, im, Put(n, x))) == Restored(l, im)
  {
  }

  /** After the commit, writing a listed home block does not matter, whatever the data. */
  lemma InstallNeutral<D>(l: Layout, im: Image<D>, n: nat, x: D)
    requires Sound(l, im) && n in im.header
    ensures n < |im.blocks| && n != l.start
    ensures Restored(l, Step(l, im, Put(n, x))) == Restored(l, im)
  {
    var i :| 0 <= i < |im.header| && im.header[i] == n;
    assert Last(im.header, n) >= 0;
  }

  /** Once every listed block is home, erasing the header does not matter. */
  lemma EraseNeutral<D>(l: Layout, im: Image<D>)
    requires Sound(l, im)
    requires forall n :: n in Restored(l, im) ==> im.blocks[n] == Restored(l, im)[n]
    ensures Restored(l, Step(l, im, Head([]))) == Restored(l, im)
  {
  }

  // ---- sequences of writes ----

  ghost predicate AllWritable<D>(l: Layout, im: Image<D>, ws: seq<Write<D>>) {
    forall i :: 0 <= i < |ws| ==> Writable(l, im, ws[i])
  }

  ghost function Apply<D>(l: Layout, im: Image<D>, ws: seq<Write<D>>): (r: Image<D>)
    requires AllWritable(l, im, ws)
    ensures |r.blocks| == |im.blocks|
    ensures Sound(l, im) ==> Sound(l, r)
    decreases |ws|
  {
    if |ws| == 0 then im
    else Step(l, Apply(l, im, ws[..|ws| - 1]), ws[|ws| - 1])
  }

  /** The last of k writes is applied to the result of the others. */
  lemma ApplyLast<D>(l: Layout, im: Image<D>, ws: seq<Write<D>>, k: nat)
    requires AllWritable(l, im, ws) && 0 < k <= |ws|
    ensures AllWritable(l, im, ws[..k - 1]) && AllWritable(l, im, ws[..k])
    ensures Apply(l, im, ws[..k]) == Step(l, Apply(l, im, ws[..k - 1]), ws[k - 1])
  {
    assert ws[..k][..k - 1] == ws[..k - 1];
  }

  lemma {:induction false} ApplyAppend<D>(l: Layout, im: Image<D>, a: seq<Write<D>>, b: seq<Write<D>>)
    requires AllWritable(l, im, a) && AllWritable(l, im, b)
    ensures AllWritable(l, im, a + b) && Apply(l, im, a + b) == Apply(l, Apply(l, im, a), b)
    decreases |b|
  {
    assert AllWritable(l, im, a + b);
    if |b| == 0 {
      assert a + b == a;
    } else {
      assert (a + b)[..|a + b| - 1] == a + b[..|b| - 1];
      ApplyAppend(l, im, a, b[..|b| - 1]);
    }
  }

  /** write_log: block bs[i] of v to the i-th log block. */
  ghost function LogWrites<D>(l: Layout, v: seq<D>, bs: seq<nat>): (ws: seq<Write<D>>)
    requires l.Home(|v|, bs)
  {
    seq(|bs|, i requires 0 <= i < |bs| => Put(l.start + 1 + i, v[bs[i]]))
  }

  /** install_trans: the i-th log block to block bs[i]. */
  ghost function InstallWrites<D>(l: Layout, d: seq<D>, bs: seq<nat>): (ws: seq<Write<D>>)
    requires l.Fits(|d|) && |bs| <= LOGSIZE
  {
    seq(|bs|, i requires 0 <= i < |bs| => Put(bs[i], d[l.start + 1 + i]))
  }

  ghost predicate CanCommit<D>(l: Layout, v: seq<D>, bs: seq<nat>) {
    l.Fits(|v|) && 0 < |bs| <= LOGSIZE && l.Home(|v|, bs)
  }

  /** The disk writes of commit when the cached blocks read as v and the in-memory header lists bs. */
  ghost function CommitWrites<D>(l: Layout, v: seq<D>, bs: seq<nat>): (ws: seq<Write<D>>)
    requires CanCommit(l, v, bs)
  {
    (LogWrites(l, v, bs) + [Head(bs)]) + (HomeWrites(v, bs) + [Head([])])
  }

  /** The i-th of these writes is block bs[i] of v, home. */
  ghost function HomeWrites<D>(v: seq<D>, bs: seq<nat>): (ws: seq<Write<D>>)
    requires forall i :: 0 <= i < |bs| ==> bs[i] < |v|
  {
    seq(|bs|, i requires 0 <= i < |bs| => Put(bs[i], v[bs[i]]))
  }

  /** The disk writes of recover_from_log. */
  ghost function RecoveryWrites<D>(l: Layout, im: Image<D>): (ws: seq<Write<D>>)
    requires Sound(l, im)
    ensures AllWritable(l, im, ws) && |ws| == |im.header| + 1
  {
    InstallWrites(l, im.blocks, im.header) + [Head([])]
  }

  // ---- the phases of commit and recovery, after k of their writes ----

  /** d1 is d with the first k of the blocks bs of v written to the log. */
  ghost predicate HasLogged<D>(l: Layout, d: seq<D>, d1: seq<D>, v: seq<D>, bs: seq<nat>, k: nat) {
    && |d| == |d1| == |v| && CanCommit(l, v, bs) && k <= |bs|
    && (forall i :: 0 <= i < k ==> d1[l.start + 1 + i] == v[bs[i]])
    && (forall n :: 0 <= n < |d| && !l.InLog(n) ==> d1[n] == d[n])
  }

  lemma LogOne<D>(l: Layout, d: seq<D>, d1: seq<D>, v: seq<D>, bs: seq<nat>, k: nat)
    requires HasLogged(l, d, d1, v, bs, k) && k < |bs|
    ensures HasLogged(l, d, d1[l.start + 1 + k := v[bs[k]]], v, bs, k + 1)
  {
  }

  lemma {:induction false} LogEffect<D>(l: Layout, im: Image<D>, v: seq<D>, bs: seq<nat>, k: nat)
    requires |v| == |im.blocks| && CanCommit(l, v, bs) && k <= |bs|
    ensures AllWritable(l, im, LogWrites(l, v, bs)) && AllWritable(l, im, LogWrites(l, v, bs)[..k])
    ensures HasLogged(l, im.blocks, Apply(l, im, LogWrites(l, v, bs)[..k]).blocks, v, bs, k)
  {
    if k > 0 {
      LogEffect(l, im, v, bs, k - 1);
      ApplyLast(l, im, LogWrites(l, v, bs), k);
      LogOne(l, im.blocks, Apply(l, im, LogWrites(l, v, bs)[..k - 1]).blocks, v, bs, k - 1);
    }
  }

  lemma {:induction false} LogPhase<D>(l: Layout, im: Image<D>, v: seq<D>, bs: seq<nat>, k: nat)
    requires Sound(l, im) && im.header == [] && |v| == |im.blocks| && CanCommit(l, v, bs) && k <= |bs|
    ensures AllWritable(l, im, LogWrites(l, v, bs)) && AllWritable(l, im, LogWrites(l, v, bs)[..k])
    ensures
      var im' := Apply(l, im, LogWrites(l, v, bs)[..k]);
      im'.header == [] && Restored(l, im') == Restored(l, im)
  {
    if k > 0 {
      LogPhase(l, im, v, bs, k - 1);
      ApplyLast(l, im, LogWrites(l, v, bs), k);
      LogWriteNeutral(l, Apply(l, im, LogWrites(l, v, bs)[..k - 1]), l.start + k, v[bs[k - 1]]);
    }
  }

  /** d1 is d with the first k logged blocks copied home. */
  ghost predicate HasInstalled<D>(l: Layout, d: seq<D>, d1: seq<D>, bs: seq<nat>, k: nat) {
    && |d| == |d1| && l.Fits(|d|) && k <= |bs| <= LOGSIZE
    && forall n :: 0 <= n < |d| ==> d1[n] == Overlay(l, d, bs[..k], n)
  }

  lemma InstallOne<D>(l: Layout, d: seq<D>, d1: seq<D>, bs: seq<nat>, k: nat)
    requires HasInstalled(l, d, d1, bs, k) && k < |bs| && bs[k] < |d|
    ensures HasInstalled(l, d, d1[bs[k] := d[l.start + 1 + k]], bs, k + 1)
  {
    assert bs[..k + 1][..k] == bs[..k];
    forall n | 0 <= n < |d|
      ensures Overlay(l, d, bs[..k + 1], n) == if n == bs[k] then d[l.start + 1 + k] else Overlay(l, d, bs[..k], n)
    {
    }
  }

  lemma {:induction false} InstallPhase<D>(l: Layout, im: Image<D>, k: nat)
    requires Sound(l, im) && k <= |im.header|
    ensures AllWritable(l, im, InstallWrites(l, im.blocks, im.header)[..k])
    ensures
      var im' := Apply(l, im, InstallWrites(l, im.blocks, im.header)[..k]);
      && im'.header == im.header && Restored(l, im') == Restored(l, im)
      && HasInstalled(l, im.blocks, im'.blocks, im.header, k)
  {
    var bs, ws := im.header, InstallWrites(l, im.blocks, im.header);
    if k > 0 {
      InstallPhase(l, im, k - 1);
      ApplyLast(l, im, ws, k);
      var im1 := Apply(l, im, ws[..k - 1]);
      InstallNeutral(l, im1, bs[k - 1], im.blocks[l.start + k]);
      InstallOne(l, im.blocks, im1.blocks, bs, k - 1);
    }
  }

  /** Recovery cut off after any number of writes leaves the restored state as it was; run to the end it is home. */
  lemma RecoveryCrash<D>(l: Layout, im: Image<D>, k: nat)
    requires Sound(l, im) && k <= |im.header| + 1
    ensures AllWritable(l, im, RecoveryWrites(l, im)[..k])
    ensures
      var im' := Apply(l, im, RecoveryWrites(l, im)[..k]);
      && Restored(l, im') == Restored(l, im)
      && (k == |im.header| + 1 ==> im'.header == [] && forall n :: n in Restored(l, im) ==>
          im'.blocks[n] == Restored(l, im)[n])
  {
    var bs, ws, w1 := im.header, RecoveryWrites(l, im), InstallWrites(l, im.blocks, im.header);
    if k <= |bs| {
      assert ws[..k] == w1[..k];
      InstallPhase(l, im, k);
    } else {
      InstallPhase(l, im, |bs|);
      assert w1[..|bs|] == ws[..|bs|] && bs[..|bs|] == bs;
      ApplyLast(l, im, ws, k);
      EraseNeutral(l, Apply(l, im, ws[..|bs|]));
    }
  }

  /** The state that committing bs from v makes durable. */
  ghost function Committed<D>(l: Layout, d: seq<D>, v: seq<D>, bs: seq<nat>): map<nat, D>
    requires |v| == |d|
  {
    map n: nat | n < |d| && !l.InLog(n) :: if n in bs then v[n] else d[n]
  }

  /** Just after the committing header write: what is left of commit is what recovery would do. */
  lemma AtCommit<D>(l: Layout, im: Image<D>, v: seq<D>, bs: seq<nat>)
    requires Sound(l, im) && im.header == [] && |v| == |im.blocks| && CanCommit(l, v, bs)
    ensures AllWritable(l, im, LogWrites(l, v, bs) + [Head(bs)])
    ensures
      var im' := Apply(l, im, LogWrites(l, v, bs) + [Head(bs)]);
      && Restored(l, im') == Committed(l, im.blocks, v, bs)
      && HomeWrites(v, bs) + [Head([])] == RecoveryWrites(l, im')
  {
    var w1 := LogWrites(l, v, bs);
    LogPhase(l, im, v, bs, |bs|);
    LogEffect(l, im, v, bs, |bs|);
    assert w1[..|bs|] == w1;
    ApplyAppend(l, im, w1, [Head(bs)]);
    OverlayLogged(l, im.blocks, Apply(l, im, w1).blocks, v, bs);
  }

  lemma OverlayLogged<D>(l: Layout, d: seq<D>, d1: seq<D>, v: seq<D>, bs: seq<nat>)
    requires HasLogged(l, d, d1, v, bs, |bs|)
    ensures forall n :: 0 <= n < |v| && !l.InLog(n) ==> Overlay(l, d1, bs, n) == if n in bs then v[n] else d[n]
    ensures HomeWrites(v, bs) == InstallWrites(l, d1, bs)
  {
  }

  /** Commit cut off after any number of writes: all old up to the header write, all new from it on. */
  lemma CommitCrash<D>(l: Layout, im: Image<D>, v: seq<D>, bs: seq<nat>, k: nat)
    requires Sound(l, im) && im.header == [] && |v| == |im.blocks| && CanCommit(l, v, bs) && k <= 2 * |bs| + 2
    ensures |CommitWrites(l, v, bs)| == 2 * |bs| + 2 && AllWritable(l, im, CommitWrites(l, v, bs)[..k])
    ensures
      var im' := Apply(l, im, CommitWrites(l, v, bs)[..k]);
      && Restored(l, im') == (if k <= |bs| then Restored(l, im) else Committed(l, im.blocks, v, bs))
      && (k == 2 * |bs| + 2 ==> im'.header == [])
  {
    var ws := CommitWrites(l, v, bs);
    if k <= |bs| {
      assert ws[..k] == LogWrites(l, v, bs)[..k];
      LogPhase(l, im, v, bs, k);
    } else {
      AtCommit(l, im, v, bs);
      var w1 := LogWrites(l, v, bs) + [Head(bs)];
      var w2 := (HomeWrites(v, bs) + [Head([])])[..k - |w1|];
      RecoveryCrash(l, Apply(l, im, w1), k - |w1|);
      assert ws[..k] == w1 + w2;
      assert AllWritable(l, im, w2);
      ApplyAppend(l, im, w1, w2);
    }
  }

  /** The disk after recovery has been started once for each element of ks and cut off after that many writes. */
  ghost function Restarted<D>(l: Layout, im: Image<D>, ks: seq<nat>): (r: Image<D>)
    requires Sound(l, im)
    ensures Sound(l, r) && |r.blocks| == |im.blocks| && Restored(l, r) == Restored(l, im)
    decreases |ks|
  {
    if |ks| == 0 then im
    else
      var k := if ks[0] <= |im.header| + 1 then ks[0] else |im.header| + 1;
      RecoveryCrash(l, im, k);
      Restarted(l, Apply(l, im, RecoveryWrites(l, im)[..k]), ks[1..])
  }

  /**
   Crash atomicity: commit is cut off after k writes, then recovery any number of
   times, then recovery runs to its end. The home blocks are all old or all new,
   all new from the first header write on, and the log is empty.
   */
  lemma CrashAtomicity<D>(l: Layout, im: Image<D>, v: seq<D>, bs: seq<nat>, k: nat, ks: seq<nat>)
    requires Sound(l, im) && im.header == [] && |v| == |im.blocks| && CanCommit(l, v, bs) && k <= 2 * |bs| + 2
    ensures |CommitWrites(l, v, bs)| == 2 * |bs| + 2 && AllWritable(l, im, CommitWrites(l, v, bs)[..k])
    ensures
      var crashed := Restarted(l, Apply(l, im, CommitWrites(l, v, bs)[..k]), ks);
      var final := Apply(l, crashed, RecoveryWrites(l, crashed));
      && final.header == []
      && forall n :: 0 <= n < |v| && !l.InLog(n) ==>
        final.blocks[n] == if k > |bs| && n in bs then v[n] else im.blocks[n]
  {
    CommitCrash(l, im, v, bs, k);
    var crashed := Restarted(l, Apply(l, im, CommitWrites(l, v, bs)[..k]), ks);
    var ws := RecoveryWrites(l, crashed);
    RecoveryCrash(l, crashed, |ws|);
    assert ws[..|ws|] == ws;
    forall n | 0 <= n < |v| && !l.InLog(n) ensures n in Restored(l, crashed) {
    }
  }
}
