/**
 The log over the buffer cache (kernel/log.c): the in-memory header, the
 reservation counters, and the loops that copy blocks between the log area and
 their home locations. Each method is tied to the sequence of disk writes that
 Recovery is about.
 */
module Log {
  import opened Block
  import opened Bio
  import opened Common
  import R = Recovery

  const LOGSIZE := R.LOGSIZE
  const MAXOPBLOCKS := R.MAXOPBLOCKS

  // ---- the header block: hb->n and hb->block[] ----

  /** The blocks that header block h lists. */
  ghost function Listing(h: Data): (bs: seq<nat>)
    requires Word(h, 0) <= LOGSIZE
    ensures |bs| == Word(h, 0) && forall i :: 0 <= i < |bs| ==> bs[i] == Word(h, i + 1)
  {
    seq(Word(h, 0), i requires 0 <= i < LOGSIZE => Word(h, i + 1))
  }

  /** Header block h after bs has been stored in its block array. */
  ghost function PutBlocks(h: Data, bs: seq<nat>): (r: Data)
    requires |bs| <= LOGSIZE && forall i :: 0 <= i < |bs| ==> bs[i] < WORD_LIMIT
    ensures Word(r, 0) == Word(h, 0) && forall i :: 0 <= i < |bs| ==> Word(r, i + 1) == bs[i]
  {
    if |bs| == 0 then h
    else SetWord(PutBlocks(h, bs[..|bs| - 1]), |bs|, bs[|bs| - 1])
  }

  ghost function PutHeader(h: Data, bs: seq<nat>): (r: Data)
    requires |bs| <= LOGSIZE && forall i :: 0 <= i < |bs| ==> bs[i] < WORD_LIMIT
    ensures Word(r, 0) <= LOGSIZE && Listing(r) == bs
  {
    PutBlocks(SetWord(h, 0, |bs|), bs)
  }

  // ---- disk writes ----

  ghost predicate InRange<D>(m: nat, ws: seq<Write<D>>) {
    forall i :: 0 <= i < |ws| ==> ws[i].blockno < m
  }

  /** Blocks d after writes ws. */
  ghost function Play<D>(d: seq<D>, ws: seq<Write<D>>): (r: seq<D>)
    requires InRange(|d|, ws)
    ensures |r| == |d|
  {
    if |ws| == 0 then d
    else Play(d, ws[..|ws| - 1])[ws[|ws| - 1].blockno := ws[|ws| - 1].data]
  }

  lemma PlayOne<D>(d: seq<D>, ws: seq<Write<D>>, w: Write<D>)
    requires InRange(|d|, ws) && w.blockno < |d|
    ensures InRange(|d|, ws + [w]) && Play(d, ws + [w]) == Play(d, ws)[w.blockno := w.data]
  {
    assert (ws + [w])[..|ws|] == ws;
  }

  /** The cache after writes ws that went through it. */
  ghost function Played(a: Flat, ws: seq<Write<Data>>): Flat
    requires |a.view| == |a.disk| && InRange(|a.disk|, ws)
  {
    a.(disk := Play(a.disk, ws), view := Play(a.view, ws))
  }

  /** The writes of the first k iterations of write_log. */
  ghost function LogTrace<D>(l: R.Layout, v: seq<D>, bs: seq<nat>, k: nat): (ws: seq<Write<D>>)
    requires k <= |bs| <= LOGSIZE && l.Fits(|v|) && l.Home(|v|, bs)
    ensures |ws| == k && InRange(|v|, ws)
  {
    seq(k, i requires 0 <= i < k => Write(l.start + 1 + i, v[bs[i]]))
  }

  /** The writes of the first k iterations of install_trans. */
  ghost function InstallTrace<D>(l: R.Layout, v: seq<D>, bs: seq<nat>, k: nat): (ws: seq<Write<D>>)
    requires k <= |bs| <= LOGSIZE && l.Fits(|v|) && l.Home(|v|, bs)
    ensures |ws| == k && InRange(|v|, ws)
  {
    seq(k, i requires 0 <= i < k => Write(bs[i], v[l.start + 1 + i]))
  }

  lemma LogTraceStep<D>(l: R.Layout, d: seq<D>, v: seq<D>, bs: seq<nat>, k: nat)
    requires |d| == |v| && k < |bs| <= LOGSIZE && l.Fits(|v|) && l.Home(|v|, bs)
    ensures LogTrace(l, v, bs, k + 1) == LogTrace(l, v, bs, k) + [Write(l.start + 1 + k, v[bs[k]])]
    ensures Play(d, LogTrace(l, v, bs, k + 1)) == Play(d, LogTrace(l, v, bs, k))[l.start + 1 + k := v[bs[k]]]
  {
    assert LogTrace(l, v, bs, k + 1) == LogTrace(l, v, bs, k) + [Write(l.start + 1 + k, v[bs[k]])];
    PlayOne(d, LogTrace(l, v, bs, k), Write(l.start + 1 + k, v[bs[k]]));
  }

  lemma InstallTraceStep<D>(l: R.Layout, d: seq<D>, v: seq<D>, bs: seq<nat>, k: nat)
    requires |d| == |v| && k < |bs| <= LOGSIZE && l.Fits(|v|) && l.Home(|v|, bs)
    ensures InstallTrace(l, v, bs, k + 1) == InstallTrace(l, v, bs, k) + [Write(bs[k], v[l.start + 1 + k])]
    ensures Play(d, InstallTrace(l, v, bs, k + 1)) == Play(d, InstallTrace(l, v, bs, k))[bs[k] := v[l.start + 1 + k]]
  {
    assert InstallTrace(l, v, bs, k + 1) == InstallTrace(l, v, bs, k) + [Write(bs[k], v[l.start + 1 + k])];
    PlayOne(d, InstallTrace(l, v, bs, k), Write(bs[k], v[l.start + 1 + k]));
  }

  /** What write_log leaves: blocks outside the log as they were, log blocks with the listed contents. */
  ghost predicate HasTraced<D>(l: R.Layout, d: seq<D>, d': seq<D>, v: seq<D>, bs: seq<nat>, k: nat)
    requires |d| == |d'| == |v| && k <= |bs| <= LOGSIZE && l.Fits(|v|) && l.Home(|v|, bs)
  {
    && (forall n :: 0 <= n < |v| && (!l.InLog(n) || n == l.start) ==> d'[n] == d[n])
    && (forall i :: 0 <= i < k ==> d'[l.start + 1 + i] == v[bs[i]])
  }

  lemma {:induction false} LogTraceEffect<D>(l: R.Layout, d: seq<D>, v: seq<D>, bs: seq<nat>, k: nat)
    requires |d| == |v| && k <= |bs| <= LOGSIZE && l.Fits(|v|) && l.Home(|v|, bs)
    ensures HasTraced(l, d, Play(d, LogTrace(l, v, bs, k)), v, bs, k)
  {
    if k > 0 {
      LogTraceEffect(l, d, v, bs, k - 1);
      LogTraceStep(l, d, v, bs, k - 1);
    }
  }

  /** install_trans leaves the log area as it was. */
  lemma {:induction false} InstallTraceKeep<D>(l: R.Layout, d: seq<D>, v: seq<D>, bs: seq<nat>, k: nat)
    requires |d| == |v| && k <= |bs| <= LOGSIZE && l.Fits(|v|) && l.Home(|v|, bs)
    ensures forall n :: 0 <= n < |v| && l.InLog(n) ==> Play(d, InstallTrace(l, v, bs, k))[n] == d[n]
  {
    if k > 0 {
      InstallTraceKeep(l, d, v, bs, k - 1);
      InstallTraceStep(l, d, v, bs, k - 1);
    }
  }

  /** a with block n written, on disk and in memory, with what block m reads as. */
  ghost function Written(a: Flat, n: nat, m: nat): Flat
    requires n < |a.disk| && n < |a.view| && m < |a.view|
  {
    a.(disk := a.disk[n := a.view[m]], view := a.view[n := a.view[m]])
  }

  /** a with the header block written as h. */
  ghost function Headed(a: Flat, start: nat, h: Data): Flat
    requires start < |a.disk| && start < |a.view|
  {
    a.(disk := a.disk[start := h], view := a.view[start := h])
  }

  ghost predicate AllUnpinned(a: Flat) {
    forall n :: 0 <= n < |a.pins| ==> a.pins[n] == 0
  }

  /** With nothing pinned and at most one block held, a buffer is free. */
  lemma FewBusy(a: Flat, c: Cache)
    requires Represents(a, c) && AllUnpinned(a) && |a.held| <= 1
    ensures a.free
  {
    FreeIff(a, c);
    assert Busy(a) <= a.held.Keys;
    Fewer(Busy(a), a.held.Keys);
  }

  /** One more iteration of write_log. */
  lemma LogTraceNext(l: R.Layout, a: Flat, bs: seq<nat>, k: nat)
    requires |a.view| == |a.disk| && k < |bs| <= LOGSIZE && l.Fits(|a.view|) && l.Home(|a.view|, bs)
    ensures LogTrace(l, a.view, bs, k + 1) == LogTrace(l, a.view, bs, k) + [Write(l.start + 1 + k, a.view[bs[k]])]
    ensures Played(a, LogTrace(l, a.view, bs, k)).view[bs[k]] == a.view[bs[k]]
    ensures Played(a, LogTrace(l, a.view, bs, k + 1)) ==
      Written(Played(a, LogTrace(l, a.view, bs, k)), l.start + 1 + k, bs[k])
  {
    LogTraceEffect(l, a.view, a.view, bs, k);
    LogTraceStep(l, a.view, a.view, bs, k);
    LogTraceStep(l, a.disk, a.view, bs, k);
  }

  /** One more iteration of install_trans. */
  lemma InstallTraceNext(l: R.Layout, a: Flat, bs: seq<nat>, k: nat)
    requires |a.view| == |a.disk| && k < |bs| <= LOGSIZE && l.Fits(|a.view|) && l.Home(|a.view|, bs)
    ensures InstallTrace(l, a.view, bs, k + 1) ==
      InstallTrace(l, a.view, bs, k) + [Write(bs[k], a.view[l.start + 1 + k])]
    ensures Played(a, InstallTrace(l, a.view, bs, k)).view[l.start + 1 + k] == a.view[l.start + 1 + k]
    ensures Played(a, InstallTrace(l, a.view, bs, k + 1)) ==
      Written(Played(a, InstallTrace(l, a.view, bs, k)), bs[k], l.start + 1 + k)
  {
    InstallTraceKeep(l, a.view, a.view, bs, k);
    InstallTraceStep(l, a.view, a.view, bs, k);
    InstallTraceStep(l, a.disk, a.view, bs, k);
  }

  /** pins after the first k blocks of bs have been unpinned. */
  ghost function Unpinned(pins: seq<nat>, bs: seq<nat>, k: nat): (r: seq<nat>)
    requires k <= |bs| && forall i :: 0 <= i < |bs| ==> bs[i] < |pins|
    ensures |r| == |pins|
  {
    if k == 0 then pins else Unpinned(pins, bs, k - 1)[bs[k - 1] := 0]
  }

  lemma {:induction false} UnpinnedAt(pins: seq<nat>, bs: seq<nat>, k: nat, n: nat)
    requires k <= |bs| && (forall i :: 0 <= i < |bs| ==> bs[i] < |pins|) && n < |pins|
    ensures Unpinned(pins, bs, k)[n] == if n in bs[..k] then 0 else pins[n]
  {
    if k > 0 {
      UnpinnedAt(pins, bs, k - 1, n);
      assert bs[..k] == bs[..k - 1] + [bs[k - 1]];
    }
  }

  ghost predicate Fitting(l: R.Layout, a: Flat, bs: seq<nat>) {
    |a.view| == |a.disk| == |a.pins| && |bs| <= LOGSIZE && l.Fits(|a.view|) && l.Home(|a.view|, bs)
  }

  /** The cache after the first k iterations of install_trans. */
  ghost function Installed(l: R.Layout, a: Flat, bs: seq<nat>, k: nat): Flat
    requires Fitting(l, a, bs) && k <= |bs|
  {
    Played(a, InstallTrace(l, a.view, bs, k)).(pins := Unpinned(a.pins, bs, k), free := a.free || k > 0)
  }

  lemma InstalledNext(l: R.Layout, a: Flat, bs: seq<nat>, k: nat)
    requires Fitting(l, a, bs) && k < |bs|
    ensures InstallTrace(l, a.view, bs, k + 1) ==
      InstallTrace(l, a.view, bs, k) + [Write(bs[k], a.view[l.start + 1 + k])]
    ensures Installed(l, a, bs, k).view[l.start + 1 + k] == a.view[l.start + 1 + k]
    ensures
      var b := Installed(l, a, bs, k);
      Installed(l, a, bs, k + 1) == Written(b, bs[k], l.start + 1 + k).(pins := b.pins[bs[k] := 0], free := true)
  {
    InstallTraceNext(l, a, bs, k);
  }

  /** Blocks of the log area are not pinned. */
  ghost predicate LogUnpinned(l: R.Layout, a: Flat) {
    forall n :: l.start <= n < l.start + l.size && n < |a.pins| ==> a.pins[n] == 0
  }

  /** The blocks in the log are distinct, and each is pinned once. */
  ghost predicate Pinned(a: Flat, bs: seq<nat>) {
    && (forall i, j :: 0 <= i < j < |bs| ==> bs[i] != bs[j])
    && (forall i :: 0 <= i < |bs| ==> bs[i] < |a.pins| && a.pins[bs[i]] == 1)
  }

  /** Others may hold buffers meanwhile, but not of the log or of the blocks in it. */
  ghost predicate HeldApart(l: R.Layout, a: Flat, bs: seq<nat>) {
    forall n :: n in a.held ==> !l.InLog(n) && n !in bs
  }

  /** Nobody but the log holds buffers of the log area. */
  ghost predicate LogApart(l: R.Layout, a: Flat) {
    forall n :: n in a.held ==> !l.InLog(n)
  }

  ghost predicate CanInstall(l: R.Layout, a: Flat, bs: seq<nat>, recovering: bool) {
    && Fitting(l, a, bs) && HeldApart(l, a, bs) && LogUnpinned(l, a) && (recovering ==> a.held == map[])
    && if recovering then AllUnpinned(a) else Pinned(a, bs)
  }

  ghost predicate CanLog(l: R.Layout, a: Flat, bs: seq<nat>) {
    Fitting(l, a, bs) && HeldApart(l, a, bs) && LogUnpinned(l, a) && Pinned(a, bs)
  }

  /** What holds of the pins before an iteration. */
  lemma InstalledPins(l: R.Layout, a: Flat, bs: seq<nat>, k: nat, recovering: bool)
    requires CanInstall(l, a, bs, recovering) && k < |bs|
    ensures
      var b := Installed(l, a, bs, k);
      && |b.pins| == |a.pins| && b.pins[l.start + 1 + k] == 0 && b.held == a.held
      && if recovering then AllUnpinned(b) else b.pins[bs[k]] == 1
  {
    UnpinnedAt(a.pins, bs, k, l.start + 1 + k);
    UnpinnedAt(a.pins, bs, k, bs[k]);
    forall n | 0 <= n < |a.pins| ensures Unpinned(a.pins, bs, k)[n] == if n in bs[..k] then 0 else a.pins[n] {
      UnpinnedAt(a.pins, bs, k, n);
    }
  }

  // ---- commit and recovery as sequences of writes ----

  /** What a disk write means to recovery: a header write by what it lists, any other by its block. */
  ghost function Meaning(l: R.Layout, w: Write<Data>): R.Write<Data> {
    if w.blockno == l.start && Word(w.data, 0) <= LOGSIZE then R.Head(Listing(w.data))
    else R.Put(w.blockno, w.data)
  }

  /** The i-th write of ws means the i-th write of rs. */
  ghost predicate Means(l: R.Layout, ws: seq<Write<Data>>, rs: seq<R.Write<Data>>) {
    |ws| == |rs| && forall i :: 0 <= i < |ws| ==> Meaning(l, ws[i]) == rs[i]
  }

  lemma MeansAppend(l: R.Layout, a: seq<Write<Data>>, b: seq<Write<Data>>, ra: seq<R.Write<Data>>,
                    rb: seq<R.Write<Data>>)
    requires Means(l, a, ra) && Means(l, b, rb)
    ensures Means(l, a + b, ra + rb)
  {
  }

  ghost predicate CanCommit(l: R.Layout, v: Disk, bs: seq<nat>) {
    0 < |bs| <= LOGSIZE && l.Fits(|v|) && l.Home(|v|, bs) && |v| <= WORD_LIMIT
  }

  /** The blocks after write_log and the header write that commits. */
  ghost function Prepared(l: R.Layout, v: Disk, bs: seq<nat>): (v2: Disk)
    requires CanCommit(l, v, bs)
    ensures |v2| == |v|
  {
    var v1 := Play(v, LogTrace(l, v, bs, |bs|));
    v1[l.start := PutHeader(v1[l.start], bs)]
  }

  ghost function PrepareTrace(l: R.Layout, v: Disk, bs: seq<nat>): seq<Write<Data>>
    requires CanCommit(l, v, bs)
  {
    LogTrace(l, v, bs, |bs|) + [Write(l.start, Prepared(l, v, bs)[l.start])]
  }

  /** The writes of install_trans and of the header write that erases the transaction. */
  ghost function FinishTrace(l: R.Layout, v: Disk, bs: seq<nat>): seq<Write<Data>>
    requires |bs| <= LOGSIZE && l.Fits(|v|) && l.Home(|v|, bs)
  {
    var w := InstallTrace(l, v, bs, |bs|);
    w + [Write(l.start, PutHeader(Play(v, w)[l.start], []))]
  }

  /** The disk writes of commit, from a cache that reads as v. */
  ghost function CommitTrace(l: R.Layout, v: Disk, bs: seq<nat>): seq<Write<Data>>
    requires CanCommit(l, v, bs)
  {
    PrepareTrace(l, v, bs) + FinishTrace(l, Prepared(l, v, bs), bs)
  }

  /** Each write of commit means to recovery what Recovery says of it. */
  lemma CommitMeaning(l: R.Layout, v: Disk, bs: seq<nat>)
    requires CanCommit(l, v, bs)
    ensures Means(l, CommitTrace(l, v, bs), R.CommitWrites(l, v, bs))
  {
    var v2 := Prepared(l, v, bs);
    var w1, w3 := LogTrace(l, v, bs, |bs|), InstallTrace(l, v2, bs, |bs|);
    MeansAppend(l, w1, [Write(l.start, v2[l.start])], R.LogWrites(l, v, bs), [R.Head(bs)]);
    InstallMeaning(l, v, bs);
    var last := Write(l.start, PutHeader(Play(v2, w3)[l.start], []));
    MeansAppend(l, w3, [last], R.HomeWrites(v, bs), [R.Head([])]);
    MeansAppend(l, w1 + [Write(l.start, v2[l.start])], w3 + [last],
                R.LogWrites(l, v, bs) + [R.Head(bs)], R.HomeWrites(v, bs) + [R.Head([])]);
  }

  lemma InstallMeaning(l: R.Layout, v: Disk, bs: seq<nat>)
    requires CanCommit(l, v, bs)
    ensures Means(l, InstallTrace(l, Prepared(l, v, bs), bs, |bs|), R.HomeWrites(v, bs))
  {
    LogTraceEffect(l, v, v, bs, |bs|);
    var v2 := Prepared(l, v, bs);
    forall i | 0 <= i < |bs| ensures v2[l.start + 1 + i] == v[bs[i]] {
    }
  }

  /** The cache after the committing header write. */
  ghost function AfterPrepare(l: R.Layout, a: Flat, bs: seq<nat>): Flat
    requires Fitting(l, a, bs) && CanCommit(l, a.view, bs)
  {
    var a1 := Played(a, LogTrace(l, a.view, bs, |bs|));
    Headed(a1, l.start, PutHeader(a1.view[l.start], bs))
  }

  /** The cache after install_trans and the erasing header write. */
  ghost function AfterFinish(l: R.Layout, a: Flat, bs: seq<nat>): Flat
    requires Fitting(l, a, bs)
  {
    var a1 := Installed(l, a, bs, |bs|);
    Headed(a1, l.start, PutHeader(a1.view[l.start], []))
  }

  /** After the first half of commit, the second half can run. */
  lemma PreparedCanInstall(l: R.Layout, a: Flat, bs: seq<nat>)
    requires CanLog(l, a, bs) && CanCommit(l, a.view, bs)
    ensures CanInstall(l, AfterPrepare(l, a, bs), bs, false)
    ensures AfterPrepare(l, a, bs).view == Prepared(l, a.view, bs) && AfterPrepare(l, a, bs).free == a.free
  {
  }

  /** The cache after commit. */
  ghost function AfterCommit(l: R.Layout, a: Flat, bs: seq<nat>): Flat
    requires CanLog(l, a, bs) && CanCommit(l, a.view, bs)
  {
    PreparedCanInstall(l, a, bs);
    AfterFinish(l, AfterPrepare(l, a, bs), bs)
  }

  lemma Joined<T>(a: seq<T>, b: seq<T>, c: seq<T>)
    ensures a + b + c == a + (b + c)
  {
  }

  // ---- what the writes do to the disk, in Recovery's terms ----

  /** Image im stands for disk d: the header as the list it encodes, every other block as it is. */
  ghost predicate Matches(l: R.Layout, im: R.Image<Data>, d: Disk) {
    && l.start < |d| == |im.blocks| && Word(d[l.start], 0) <= LOGSIZE && im.header == Listing(d[l.start])
    && forall n :: 0 <= n < |d| && n != l.start ==> im.blocks[n] == d[n]
  }

  lemma {:induction false} PlayMatches(l: R.Layout, im: R.Image<Data>, d: Disk, ws: seq<Write<Data>>,
                                       rs: seq<R.Write<Data>>)
    requires Matches(l, im, d) && Means(l, ws, rs) && R.AllWritable(l, im, rs) && InRange(|d|, ws)
    ensures Matches(l, R.Apply(l, im, rs), Play(d, ws))
    decreases |ws|
  {
    if |ws| > 0 {
      var k := |ws| - 1;
      PlayMatches(l, im, d, ws[..k], rs[..k]);
      var im1, d1 := R.Apply(l, im, rs[..k]), Play(d, ws[..k]);
      assert R.Writable(l, im, rs[k]) && Meaning(l, ws[k]) == rs[k];
      StepMatches(l, im1, d1, ws[k]);
    }
  }

  lemma StepMatches(l: R.Layout, im: R.Image<Data>, d: Disk, w: Write<Data>)
    requires Matches(l, im, d) && w.blockno < |d| && R.Writable(l, im, Meaning(l, w))
    ensures Matches(l, R.Step(l, im, Meaning(l, w)), d[w.blockno := w.data])
  {
  }

  /**
   The disk after any number of commit's writes is the image that Recovery's
   crash theorems speak about.
   */
  lemma CommitOnDisk(l: R.Layout, im: R.Image<Data>, d: Disk, v: Disk, bs: seq<nat>, k: nat)
    requires Matches(l, im, d) && R.Sound(l, im) && im.header == [] && |v| == |d| && CanCommit(l, v, bs)
    requires k <= 2 * |bs| + 2
    ensures |R.CommitWrites(l, v, bs)| == |CommitTrace(l, v, bs)| == 2 * |bs| + 2
    ensures InRange(|d|, CommitTrace(l, v, bs)[..k]) && R.AllWritable(l, im, R.CommitWrites(l, v, bs)[..k])
    ensures Matches(l, R.Apply(l, im, R.CommitWrites(l, v, bs)[..k]), Play(d, CommitTrace(l, v, bs)[..k]))
  {
    CommitMeaning(l, v, bs);
    R.CommitCrash(l, im, v, bs, k);
    CommitInRange(l, v, bs);
    PlayMatches(l, im, d, CommitTrace(l, v, bs)[..k], R.CommitWrites(l, v, bs)[..k]);
  }

  lemma CommitInRange(l: R.Layout, v: Disk, bs: seq<nat>)
    requires CanCommit(l, v, bs)
    ensures InRange(|v|, CommitTrace(l, v, bs)) && |CommitTrace(l, v, bs)| == 2 * |bs| + 2
  {
    PrepareInRange(l, v, bs);
    FinishInRange(l, Prepared(l, v, bs), bs);
  }

  lemma PrepareInRange(l: R.Layout, v: Disk, bs: seq<nat>)
    requires CanCommit(l, v, bs)
    ensures InRange(|v|, PrepareTrace(l, v, bs)) && |PrepareTrace(l, v, bs)| == |bs| + 1
  {
  }

  lemma FinishInRange(l: R.Layout, v: Disk, bs: seq<nat>)
    requires |bs| <= LOGSIZE && l.Fits(|v|) && l.Home(|v|, bs)
    ensures InRange(|v|, FinishTrace(l, v, bs)) && |FinishTrace(l, v, bs)| == |bs| + 1
  {
  }

  /** Likewise for recovery. */
  lemma RecoveryOnDisk(l: R.Layout, im: R.Image<Data>, d: Disk, k: nat)
    requires Matches(l, im, d) && R.Sound(l, im) && k <= |im.header| + 1
    ensures InRange(|d|, FinishTrace(l, d, im.header)) && |FinishTrace(l, d, im.header)| == |im.header| + 1
    ensures Matches(l, R.Apply(l, im, R.RecoveryWrites(l, im)[..k]), Play(d, FinishTrace(l, d, im.header)[..k]))
  {
    var ws, rs := FinishTrace(l, d, im.header), R.RecoveryWrites(l, im);
    assert Means(l, ws, rs) by {
      MeansAppend(l, InstallTrace(l, d, im.header, |im.header|), ws[|im.header|..],
                  R.InstallWrites(l, im.blocks, im.header), [R.Head([])]);
      assert ws == InstallTrace(l, d, im.header, |im.header|) + ws[|im.header|..];
    }
    PlayMatches(l, im, d, ws[..k], rs[..k]);
  }

  // ---- crashes, on the bytes of the disk ----

  /** The log area fits, and the header block lists home blocks. */
  ghost predicate GoodDisk(l: R.Layout, d: Disk) {
    && l.Fits(|d|) && Word(d[l.start], 0) <= LOGSIZE && l.Home(|d|, Listing(d[l.start]))
  }

  ghost function ImageOf(l: R.Layout, d: Disk): (im: R.Image<Data>)
    requires GoodDisk(l, d)
    ensures Matches(l, im, d) && R.Sound(l, im)
  {
    R.Image(Listing(d[l.start]), d)
  }

  lemma MatchesGood(l: R.Layout, im: R.Image<Data>, d: Disk)
    requires Matches(l, im, d) && R.Sound(l, im)
    ensures GoodDisk(l, d) && Listing(d[l.start]) == im.header
  {
  }

  /** The disk after the first k writes of recovery, or all of them. */
  ghost function CutRecovery(l: R.Layout, d: Disk, k: nat): (r: Disk)
    requires GoodDisk(l, d)
    ensures GoodDisk(l, r) && |r| == |d|
  {
    var im := ImageOf(l, d);
    var m := if k <= |im.header| + 1 then k else |im.header| + 1;
    RecoveryOnDisk(l, im, d, m);
    R.RecoveryCrash(l, im, m);
    MatchesGood(l, R.Apply(l, im, R.RecoveryWrites(l, im)[..m]), Play(d, FinishTrace(l, d, im.header)[..m]));
    Play(d, FinishTrace(l, d, im.header)[..m])
  }

  /** The disk after recovery has been started once for each element of ks and cut off after that many writes. */
  ghost function RestartedDisk(l: R.Layout, d: Disk, ks: seq<nat>): (r: Disk)
    requires GoodDisk(l, d)
    ensures GoodDisk(l, r) && |r| == |d|
    decreases |ks|
  {
    if |ks| == 0 then d else RestartedDisk(l, CutRecovery(l, d, ks[0]), ks[1..])
  }

  lemma CutMatches(l: R.Layout, im: R.Image<Data>, d: Disk, k: nat)
    requires Matches(l, im, d) && R.Sound(l, im) && k <= |im.header| + 1
    ensures GoodDisk(l, d) && R.AllWritable(l, im, R.RecoveryWrites(l, im)[..k])
    ensures Matches(l, R.Apply(l, im, R.RecoveryWrites(l, im)[..k]), CutRecovery(l, d, k))
  {
    MatchesGood(l, im, d);
    RecoveryOnDisk(l, im, d, k);
    R.RecoveryCrash(l, im, k);
  }

  /** A cut after the last write is a full recovery. */
  lemma CutPast(l: R.Layout, d: Disk, k: nat, m: nat)
    requires GoodDisk(l, d) && (k == m || (k > |Listing(d[l.start])| && m > |Listing(d[l.start])|))
    ensures CutRecovery(l, d, k) == CutRecovery(l, d, m)
  {
  }

  lemma {:induction false} RestartedMatches(l: R.Layout, im: R.Image<Data>, d: Disk, ks: seq<nat>)
    requires Matches(l, im, d) && R.Sound(l, im)
    ensures GoodDisk(l, d) && Matches(l, R.Restarted(l, im, ks), RestartedDisk(l, d, ks))
    decreases |ks|
  {
    MatchesGood(l, im, d);
    if |ks| > 0 {
      var k := if ks[0] <= |im.header| + 1 then ks[0] else |im.header| + 1;
      CutPast(l, d, k, ks[0]);
      RestartedOnce(l, im, d, k, ks);
    }
  }

  lemma RestartedOnce(l: R.Layout, im: R.Image<Data>, d: Disk, k: nat, ks: seq<nat>)
    requires Matches(l, im, d) && R.Sound(l, im) && GoodDisk(l, d) && |ks| > 0
      && CutRecovery(l, d, k) == CutRecovery(l, d, ks[0])
    requires k == if ks[0] <= |im.header| + 1 then ks[0] else |im.header| + 1
    ensures Matches(l, R.Restarted(l, im, ks), RestartedDisk(l, d, ks))
    decreases |ks|, 0
  {
    CutMatches(l, im, d, k);
    RestartedMatches(l, R.Apply(l, im, R.RecoveryWrites(l, im)[..k]), CutRecovery(l, d, k), ks[1..]);
  }

  /** The disk after commit was cut off. */
  lemma CrashedMatches(l: R.Layout, d: Disk, v: Disk, bs: seq<nat>, k: nat)
    requires GoodDisk(l, d) && Listing(d[l.start]) == [] && |v| == |d| && CanCommit(l, v, bs) && k <= 2 * |bs| + 2
    ensures |R.CommitWrites(l, v, bs)| == |CommitTrace(l, v, bs)| == 2 * |bs| + 2
      && InRange(|d|, CommitTrace(l, v, bs)[..k])
    ensures R.AllWritable(l, ImageOf(l, d), R.CommitWrites(l, v, bs)[..k])
    ensures Matches(l, R.Apply(l, ImageOf(l, d), R.CommitWrites(l, v, bs)[..k]), Play(d, CommitTrace(l, v, bs)[..k]))
    ensures GoodDisk(l, Play(d, CommitTrace(l, v, bs)[..k]))
  {
    var im := ImageOf(l, d);
    CommitOnDisk(l, im, d, v, bs, k);
    MatchesGood(l, R.Apply(l, im, R.CommitWrites(l, v, bs)[..k]), Play(d, CommitTrace(l, v, bs)[..k]));
  }

  lemma RecoveredMatches(l: R.Layout, im: R.Image<Data>, d: Disk)
    requires Matches(l, im, d) && R.Sound(l, im)
    ensures GoodDisk(l, d) && R.AllWritable(l, im, R.RecoveryWrites(l, im))
    ensures Matches(l, R.Apply(l, im, R.RecoveryWrites(l, im)), CutRecovery(l, d, LOGSIZE + 1))
  {
    MatchesGood(l, im, d);
    var rs := R.RecoveryWrites(l, im);
    CutMatches(l, im, d, |im.header| + 1);
    assert rs[..|im.header| + 1] == rs;
    CutPast(l, d, |im.header| + 1, LOGSIZE + 1);
  }

  /**
   Crash atomicity of the bytes on disk: commit's writes are cut off after the first k,
   then recovery any number of times, then recovery runs to its end. Every home block
   is old or every one is new, new from the header write on, and the header lists nothing.
   */
  lemma DiskCrashAtomicity(l: R.Layout, d: Disk, v: Disk, bs: seq<nat>, k: nat, ks: seq<nat>)
    requires GoodDisk(l, d) && Listing(d[l.start]) == [] && |v| == |d| && CanCommit(l, v, bs) && k <= 2 * |bs| + 2
    ensures |CommitTrace(l, v, bs)| == 2 * |bs| + 2 && InRange(|d|, CommitTrace(l, v, bs)[..k])
    ensures GoodDisk(l, Play(d, CommitTrace(l, v, bs)[..k]))
    ensures
      var crashed := RestartedDisk(l, Play(d, CommitTrace(l, v, bs)[..k]), ks);
      var final := CutRecovery(l, crashed, LOGSIZE + 1);
      && Listing(final[l.start]) == []
      && forall n :: 0 <= n < |v| && !l.InLog(n) ==> final[n] == if k > |bs| && n in bs then v[n] else d[n]
  {
    var im := ImageOf(l, d);
    CrashedMatches(l, d, v, bs, k);
    R.CrashAtomicity(l, im, v, bs, k, ks);
    var im1, d1 := R.Apply(l, im, R.CommitWrites(l, v, bs)[..k]), Play(d, CommitTrace(l, v, bs)[..k]);
    RestartedMatches(l, im1, d1, ks);
    RecoveredMatches(l, R.Restarted(l, im1, ks), RestartedDisk(l, d1, ks));
  }

  /** Only blocks in the log are pinned. */
  ghost predicate OnlyPinned(a: Flat, bs: seq<nat>) {
    forall n :: 0 <= n < |a.pins| && a.pins[n] > 0 ==> n in bs
  }

  ghost function Elements(bs: seq<nat>): set<nat> {
    set n | n in bs
  }

  /** a once the readers of the blocks of bs have released them. */
  ghost function Unread(a: Flat, bs: seq<nat>): Flat {
    a.(held := a.held - Elements(bs))
  }

  /** Waiting for readers of blocks in the log leaves a cache that can be committed. */
  lemma UnreadCanLog(l: R.Layout, a: Flat, bs: seq<nat>)
    requires Fitting(l, a, bs) && LogUnpinned(l, a) && Pinned(a, bs) && OnlyPinned(a, bs) && LogApart(l, a)
    ensures CanLog(l, Unread(a, bs), bs) && OnlyPinned(Unread(a, bs), bs)
  {
  }

  lemma UnreadNext(a: Flat, bs: seq<nat>, k: nat)
    requires k < |bs|
    ensures Unread(a, bs[..k + 1]) == Unread(a, bs[..k]).(held := Unread(a, bs[..k]).held - {bs[k]})
  {
    assert Elements(bs[..k + 1]) == Elements(bs[..k]) + {bs[k]};
  }

  lemma {:induction false} SeqSize(bs: seq<nat>)
    requires forall i, j :: 0 <= i < j < |bs| ==> bs[i] != bs[j]
    ensures |Elements(bs)| == |bs|
  {
    if |bs| == 0 {
      assert Elements(bs) == {};
    } else {
      var rest := bs[..|bs| - 1];
      SeqSize(rest);
      assert Elements(bs) == Elements(rest) + {bs[|bs| - 1]};
    }
  }

  /** After commit nothing is pinned. */
  lemma CommitUnpins(l: R.Layout, a: Flat, bs: seq<nat>)
    requires CanLog(l, a, bs) && CanCommit(l, a.view, bs) && OnlyPinned(a, bs)
    ensures AllUnpinned(AfterCommit(l, a, bs)) && |AfterCommit(l, a, bs).disk| == |a.disk|
  {
    forall n | 0 <= n < |a.pins| ensures Unpinned(a.pins, bs, |bs|)[n] == 0 {
      UnpinnedAt(a.pins, bs, |bs|, n);
      assert bs[..|bs|] == bs;
    }
    assert AfterCommit(l, a, bs).pins == Unpinned(a.pins, bs, |bs|);
  }

  /** Pinning a new block and adding it to the log keep the two in agreement. */
  lemma AddPin(l: R.Layout, a: Flat, bs: seq<nat>, blockno: nat)
    requires LogUnpinned(l, a) && Pinned(a, bs) && OnlyPinned(a, bs) && blockno < |a.pins| && blockno !in bs
      && !l.InLog(blockno)
    ensures
      var b := a.(pins := a.pins[blockno := a.pins[blockno] + 1]);
      LogUnpinned(l, b) && Pinned(b, bs + [blockno]) && OnlyPinned(b, bs + [blockno])
  {
    assert blockno in bs + [blockno];
  }

  class Log {
    const bc: Bcache
    const l: R.Layout
    var n: nat              // lh.n
    var block: seq<nat>     // lh.block
    var outstanding: nat
    var committing: bool

    ghost function Lh(): seq<nat>
      requires n <= |block|
      reads this
    {
      block[..n]
    }

    ghost predicate Valid()
      reads this, bc
    {
      && bc.Valid()
      && |block| == LOGSIZE && n <= LOGSIZE
      && l.Fits(|bc.abs.disk|) && |bc.abs.disk| <= WORD_LIMIT
      && l.Home(|bc.abs.disk|, Lh())
    }

    constructor (bc: Bcache, l: R.Layout)
      ensures this.bc == bc && this.l == l && n == 0 && |block| == LOGSIZE && outstanding == 0 && !committing
    {
      this.bc, this.l := bc, l;
      n, block, outstanding, committing := 0, seq(LOGSIZE, _ => 0), 0, false;
    }

    /** One iteration of write_log; false is the panic of bget. */
    method LogOne(tail: nat) returns (ok: bool)
      requires Valid() && tail < n && l.start + 1 + tail !in bc.abs.held && block[tail] !in bc.abs.held
      requires bc.abs.pins[l.start + 1 + tail] == 0 && bc.abs.pins[block[tail]] > 0
      modifies bc
      ensures bc.Valid() && ok == old(bc.abs).free
      ensures !ok ==> bc.abs == old(bc.abs) && bc.trace == old(bc.trace)
      ensures ok ==> bc.abs == Written(old(bc.abs), l.start + 1 + tail, block[tail])
      ensures ok ==> bc.trace == old(bc.trace) + [Write(l.start + 1 + tail, old(bc.abs).view[block[tail]])]
    {
      assert Lh()[tail] == block[tail];
      var n1, n2 := l.start + 1 + tail, block[tail];
      var to := bc.Bread(n1);
      if to == None {
        return false;
      }
      var from := bc.Bread(n2);
      LogHeld(n1, n2, to.value, from.value);
      assert bc.abs.held == old(bc.abs).held;
      ok := true;
    }

    /** The rest of the iteration, with both buffers in hand. */
    method LogHeld(ghost n1: nat, ghost n2: nat, to: nat, from: nat)
      requires bc.Valid() && n1 != n2 && n1 < |bc.abs.disk| && n2 < |bc.abs.disk|
      requires n1 in bc.abs.held && bc.abs.held[n1] == to && n2 in bc.abs.held && bc.abs.held[n2] == from
      requires bc.abs.pins[n1] == 0 && bc.abs.pins[n2] > 0
      modifies bc
      ensures bc.Valid()
      ensures bc.abs == Written(old(bc.abs), n1, n2).(held := old(bc.abs).held - {n1, n2}, free := true)
      ensures bc.trace == old(bc.trace) + [Write(n1, old(bc.abs).view[n2])]
    {
      bc.Copy(to, from, n1, n2);
      bc.Bwrite(to, n1);
      bc.Brelse(from, n2);
      bc.Brelse(to, n1);
      assert bc.abs.held == old(bc.abs).held - {n1, n2};
    }

    /** The iteration in terms of a and tr, the cache and the trace as the loop found them. */
    method LogNext(tail: nat, ghost a: Flat, ghost tr: seq<Write<Data>>) returns (ok: bool)
      requires Valid() && CanLog(l, a, Lh()) && tail < n
      requires bc.abs == Played(a, LogTrace(l, a.view, Lh(), tail)) && bc.trace == tr + LogTrace(l, a.view, Lh(), tail)
      modifies bc
      ensures bc.Valid() && ok == a.free && (!ok ==> bc.abs == old(bc.abs) && bc.trace == old(bc.trace))
      ensures ok ==>
        bc.abs == Played(a, LogTrace(l, a.view, Lh(), tail + 1)) && bc.trace == tr + LogTrace(l, a.view, Lh(), tail + 1)
    {
      LogTraceNext(l, a, Lh(), tail);
      assert a.pins[Lh()[tail]] == 1;
      ok := LogOne(tail);
    }

    /** write_log */
    method WriteLog() returns (ok: bool)
      requires Valid() && CanLog(l, bc.abs, Lh())
      modifies bc
      ensures bc.Valid() && ok == (n == 0 || old(bc.abs).free)
      ensures !ok ==> bc.abs == old(bc.abs) && bc.trace == old(bc.trace)
      ensures ok ==> bc.abs == Played(old(bc.abs), LogTrace(l, old(bc.abs).view, Lh(), n))
      ensures ok ==> bc.trace == old(bc.trace) + LogTrace(l, old(bc.abs).view, Lh(), n)
    {
      ghost var a, tr, bs := bc.abs, bc.trace, Lh();
      var tail := 0;
      while tail < n
        invariant 0 <= tail <= n && bc.Valid() && (tail > 0 ==> a.free)
        invariant bc.abs == Played(a, LogTrace(l, a.view, bs, tail)) && bc.trace == tr + LogTrace(l, a.view, bs, tail)
      {
        ok := LogNext(tail, a, tr);
        if !ok {
          return;
        }
        tail := tail + 1;
      }
      ok := true;
    }

    /** One iteration of install_trans. During recovery nothing is pinned. */
    method InstallOne(tail: nat, recovering: bool) returns (ok: bool)
      requires Valid() && tail < n && l.start + 1 + tail !in bc.abs.held && block[tail] !in bc.abs.held
      requires bc.abs.pins[l.start + 1 + tail] == 0
      requires if recovering then AllUnpinned(bc.abs) && bc.abs.held == map[] else bc.abs.pins[block[tail]] == 1
      modifies bc
      ensures bc.Valid() && ok == (recovering || old(bc.abs).free)
      ensures !ok ==> bc.abs == old(bc.abs) && bc.trace == old(bc.trace)
      ensures ok ==> bc.abs == Written(old(bc.abs), block[tail], l.start + 1 + tail).(pins :=
          old(bc.abs).pins[block[tail] := 0], free := true)
      ensures ok ==> bc.trace == old(bc.trace) + [Write(block[tail], old(bc.abs).view[l.start + 1 + tail])]
    {
      assert Lh()[tail] == block[tail];
      var n1, n2 := l.start + 1 + tail, block[tail];
      if recovering {
        FewBusy(bc.abs, bc.cache);
      }
      Clean(bc.abs, bc.cache, n1);
      var lbuf := bc.Bread(n1);
      if lbuf == None {
        return false;
      }
      if recovering {
        FewBusy(bc.abs, bc.cache);
      }
      var dbuf := bc.Bread(n2);
      InstallHeld(n1, n2, lbuf.value, dbuf.value, recovering);
      assert bc.abs.held == old(bc.abs).held;
      ok := true;
    }

    /** The rest of the iteration, with both buffers in hand. */
    method InstallHeld(ghost n1: nat, ghost n2: nat, lbuf: nat, dbuf: nat, recovering: bool)
      requires bc.Valid() && n1 != n2 && n1 < |bc.abs.disk| && n2 < |bc.abs.disk|
      requires n1 in bc.abs.held && bc.abs.held[n1] == lbuf && n2 in bc.abs.held && bc.abs.held[n2] == dbuf
      requires bc.abs.view[n1] == bc.abs.disk[n1]
      requires bc.abs.pins[n1] == 0 && bc.abs.pins[n2] == if recovering then 0 else 1
      modifies bc
      ensures bc.Valid()
      ensures bc.abs == Written(old(bc.abs), n2, n1).(pins := old(bc.abs).pins[n2 := 0], held :=
                                                      old(bc.abs).held - {n1, n2}, free := true)
      ensures bc.trace == old(bc.trace) + [Write(n2, old(bc.abs).view[n1])]
    {
      bc.Copy(dbuf, lbuf, n2, n1);
      bc.Bwrite(dbuf, n2);
      if !recovering {
        bc.Bunpin(dbuf, n2);
      }
      bc.Brelse(lbuf, n1);
      bc.Brelse(dbuf, n2);
      assert bc.abs.held == old(bc.abs).held - {n1, n2};
    }

    /** The iteration in terms of a and tr, the cache and the trace as the loop found them. */
    method InstallNext(tail: nat, recovering: bool, ghost a: Flat, ghost tr: seq<Write<Data>>) returns (ok: bool)
      requires Valid() && CanInstall(l, a, Lh(), recovering) && tail < n
      requires bc.abs == Installed(l, a, Lh(), tail) && bc.trace == tr + InstallTrace(l, a.view, Lh(), tail)
      modifies bc
      ensures bc.Valid() && ok == (recovering || a.free || tail > 0)
      ensures ok ==>
        bc.abs == Installed(l, a, Lh(), tail + 1) && bc.trace == tr + InstallTrace(l, a.view, Lh(), tail + 1)
    {
      InstalledNext(l, a, Lh(), tail);
      InstalledPins(l, a, Lh(), tail, recovering);
      ok := InstallOne(tail, recovering);
    }

    /** install_trans */
    method InstallTrans(recovering: bool) returns (ok: bool)
      requires Valid() && CanInstall(l, bc.abs, Lh(), recovering)
      modifies bc
      ensures bc.Valid() && ok == (recovering || n == 0 || old(bc.abs).free)
      ensures ok ==> bc.abs == Installed(l, old(bc.abs), Lh(), n)
      ensures ok ==> bc.trace == old(bc.trace) + InstallTrace(l, old(bc.abs).view, Lh(), n)
    {
      ghost var a, tr, bs := bc.abs, bc.trace, Lh();
      var tail := 0;
      while tail < n
        invariant 0 <= tail <= n && bc.Valid() && (tail > 0 ==> recovering || a.free)
        invariant bc.abs == Installed(l, a, bs, tail) && bc.trace == tr + InstallTrace(l, a.view, bs, tail)
      {
        ok := InstallNext(tail, recovering, a, tr);
        if !ok {
          return;
        }
        tail := tail + 1;
      }
      ok := true;
    }

    /** write_head: store the in-memory header in the header block and write it. */
    method WriteHead() returns (ok: bool)
      requires Valid() && l.start !in bc.abs.held && bc.abs.pins[l.start] == 0
      modifies bc
      ensures bc.Valid() && ok == old(bc.abs).free
      ensures !ok ==> bc.abs == old(bc.abs) && bc.trace == old(bc.trace)
      ensures ok ==> bc.abs == Headed(old(bc.abs), l.start, PutHeader(old(bc.abs).view[l.start], Lh()))
      ensures ok ==> bc.trace == old(bc.trace) + [Write(l.start, PutHeader(old(bc.abs).view[l.start], Lh()))]
    {
      var buf := bc.Bread(l.start);
      if buf == None {
        return false;
      }
      var hb := bc.Peek(buf.value, l.start);
      hb := EncodeHeader(hb);
      bc.Fill(buf.value, hb, l.start);
      bc.Bwrite(buf.value, l.start);
      bc.Brelse(buf.value, l.start);
      assert bc.abs.held == old(bc.abs).held;
      ok := true;
    }

    /** The assignments to hb->n and hb->block[]. */
    method EncodeHeader(h: Data) returns (hb: Data)
      requires |block| == LOGSIZE && n <= LOGSIZE && forall i :: 0 <= i < n ==> Lh()[i] < WORD_LIMIT
      ensures hb == PutHeader(h, Lh())
    {
      hb := SetWord(h, 0, n);
      var i := 0;
      while i < n
        invariant 0 <= i <= n && hb == PutBlocks(SetWord(h, 0, n), Lh()[..i])
      {
        assert Lh()[..i + 1][..i] == Lh()[..i] && Lh()[i] == block[i];
        hb := SetWord(hb, i + 1, block[i]);
        i := i + 1;
      }
      assert Lh()[..n] == Lh();
    }

    /** read_head, on a header block that lists no more than LOGSIZE blocks. */
    method ReadHead()
      requires bc.Valid() && bc.abs.held == map[] && AllUnpinned(bc.abs) && |block| == LOGSIZE
      requires l.start < |bc.abs.disk| && Word(bc.abs.view[l.start], 0) <= LOGSIZE
      modifies bc, this`n, this`block
      ensures bc.Valid() && bc.abs == old(bc.abs) && bc.trace == old(bc.trace)
      ensures |block| == LOGSIZE && n <= LOGSIZE && Lh() == Listing(bc.abs.view[l.start])
    {
      FewBusy(bc.abs, bc.cache);
      Clean(bc.abs, bc.cache, l.start);
      var buf := bc.Bread(l.start);
      var lh := bc.Peek(buf.value, l.start);
      DecodeHeader(lh);
      bc.Brelse(buf.value, l.start);
    }

    /** The assignments to log.lh. */
    method DecodeHeader(lh: Data)
      requires |block| == LOGSIZE && Word(lh, 0) <= LOGSIZE
      modifies this`n, this`block
      ensures |block| == LOGSIZE && n <= LOGSIZE && Lh() == Listing(lh)
    {
      n := Word(lh, 0);
      var i := 0;
      while i < n
        invariant 0 <= i <= n == Word(lh, 0) <= LOGSIZE && |block| == LOGSIZE
        invariant forall k :: 0 <= k < i ==> block[k] == Word(lh, k + 1)
      {
        block := block[i := Word(lh, i + 1)];
        i := i + 1;
      }
    }

    /** The first half of commit: write_log and the header write that commits. */
    method Prepare() returns (ok: bool)
      requires Valid() && CanLog(l, bc.abs, Lh()) && n > 0
      modifies bc
      ensures bc.Valid() && ok == old(bc.abs).free
      ensures !ok ==> bc.abs == old(bc.abs) && bc.trace == old(bc.trace)
      ensures ok ==> bc.abs == AfterPrepare(l, old(bc.abs), Lh())
      ensures ok ==> bc.trace == old(bc.trace) + PrepareTrace(l, old(bc.abs).view, Lh())
    {
      ok := WriteLog();
      if ok {
        ok := WriteHead();
      }
    }

    /** The second half, which is also what recovery does: install_trans and the header write that erases. */
    method Finish(recovering: bool) returns (ok: bool)
      requires Valid() && CanInstall(l, bc.abs, Lh(), recovering)
      modifies bc, this`n
      ensures bc.Valid() && ok == ((recovering && old(n) > 0) || old(bc.abs).free)
      ensures ok ==> n == 0 && bc.abs == AfterFinish(l, old(bc.abs), old(Lh()))
      ensures ok ==> bc.trace == old(bc.trace) + FinishTrace(l, old(bc.abs).view, old(Lh()))
    {
      UnpinnedAt(bc.abs.pins, Lh(), n, l.start);
      ok := InstallTrans(recovering);
      if ok {
        n := 0;
        ok := WriteHead();
      }
    }

    /** commit; false is the panic of bget, before anything is written. */
    method Commit() returns (ok: bool)
      requires Valid() && CanLog(l, bc.abs, Lh())
      modifies bc, this`n
      ensures bc.Valid() && ok == (old(n) == 0 || old(bc.abs).free)
      ensures !ok || old(n) == 0 ==> bc.abs == old(bc.abs) && bc.trace == old(bc.trace) && n == old(n)
      ensures ok && old(n) > 0 ==> n == 0 && bc.abs == AfterCommit(l, old(bc.abs), old(Lh()))
      ensures ok && old(n) > 0 ==> bc.trace == old(bc.trace) + CommitTrace(l, old(bc.abs).view, old(Lh()))
    {
      ok := true;
      if n > 0 {
        ghost var a, bs, tr := bc.abs, Lh(), bc.trace;
        PreparedCanInstall(l, a, bs);
        ok := Prepare();
        if ok {
          ok := Finish(false);
          Joined(tr, PrepareTrace(l, a.view, bs), FinishTrace(l, Prepared(l, a.view, bs), bs));
        }
      }
    }

    /** recover_from_log, at boot: nothing is pinned or held. */
    method RecoverFromLog(ghost im: R.Image<Data>) returns (ok: bool)
      requires bc.Valid() && bc.abs.held == map[] && AllUnpinned(bc.abs) && |block| == LOGSIZE
      requires l.Fits(|bc.abs.disk|) && |bc.abs.disk| <= WORD_LIMIT
      requires Matches(l, im, bc.abs.view) && R.Sound(l, im)
      modifies bc, this`n, this`block
      ensures bc.Valid() && ok && n == 0 && |block| == LOGSIZE
      ensures bc.abs == AfterFinish(l, old(bc.abs), im.header)
      ensures bc.trace == old(bc.trace) + FinishTrace(l, old(bc.abs).view, im.header)
    {
      ReadHead();
      FewBusy(bc.abs, bc.cache);
      ok := Finish(true);
    }

    // ---- the calls of file system operations ----

    /** The in-memory header agrees with the pins. */
    ghost predicate Ready()
      reads this, bc
    {
      Valid() && LogUnpinned(l, bc.abs) && Pinned(bc.abs, Lh()) && OnlyPinned(bc.abs, Lh())
    }

    /** One turn of begin_op's loop: false if the caller has to sleep and try again. */
    method BeginOp() returns (admitted: bool)
      modifies this`outstanding
      ensures admitted <==> !committing && n + (old(outstanding) + 1) * MAXOPBLOCKS <= LOGSIZE
      ensures outstanding == old(outstanding) + if admitted then 1 else 0
    {
      if committing {
        return false;
      } else if n + (outstanding + 1) * MAXOPBLOCKS > LOGSIZE {
        return false;
      } else {
        outstanding := outstanding + 1;
        return true;
      }
    }

    /** The scan of log_write for a block that is in the log already. */
    method FindLogged(blockno: nat) returns (i: nat)
      requires n <= |block|
      ensures i <= n && (i < n ==> block[i] == blockno) && (i == n <==> blockno !in Lh())
    {
      i := 0;
      while i < n && block[i] != blockno
        invariant i <= n && blockno !in Lh()[..i]
      {
        i := i + 1;
      }
      assert Lh()[..n] == Lh();
    }

    /** log_write by the process that holds the block's buffer; false is one of its two panics. */
    method LogWrite(b: nat, blockno: nat) returns (ok: bool)
      requires Ready() && blockno in bc.abs.held && bc.abs.held[blockno] == b && !l.InLog(blockno)
      modifies bc, this`n, this`block
      ensures ok <==> old(n) < LOGSIZE && old(n) < l.size - 1 && outstanding >= 1
      ensures !ok ==> bc.abs == old(bc.abs) && n == old(n) && block == old(block)
      ensures Ready() && bc.trace == old(bc.trace)
      ensures ok ==> Lh() == if blockno in old(Lh()) then old(Lh()) else old(Lh()) + [blockno]
      ensures bc.abs == old(bc.abs).(pins := bc.abs.pins)
    {
      if n >= LOGSIZE || n >= l.size - 1 {
        return false;
      }
      if outstanding < 1 {
        return false;
      }
      var i := FindLogged(blockno);
      ghost var a, bs := bc.abs, Lh();
      block := block[i := blockno];
      if i == n {
        AddPin(l, a, bs, blockno);
        bc.Bpin(b, blockno);
        n := n + 1;
        assert Lh() == bs + [blockno];
      } else {
        assert Lh() == bs;
      }
      ok := true;
    }

    /**
     A process without an operation may hold a block of the log to read it. The
     commit then sleeps at the block's lock until its brelse. The block is pinned,
     so it makes no difference to the commit when that comes.
     */
    method AwaitReaders()
      requires Ready()
      modifies bc
      ensures bc.Valid() && bc.abs == Unread(old(bc.abs), Lh()) && bc.trace == old(bc.trace)
    {
      ghost var a, bs := bc.abs, Lh();
      var i := 0;
      assert Elements(bs[..0]) == {};
      while i < n
        invariant 0 <= i <= n && bc.Valid() && bc.abs == Unread(a, bs[..i]) && bc.trace == old(bc.trace)
      {
        UnreadNext(a, bs, i);
        assert bs[i] == block[i];
        bc.AwaitHolder(block[i]);
        i := i + 1;
      }
      assert bs[..n] == bs;
    }

    /** commit, once the readers of logged blocks have released them; false is the panic of bget. */
    method CommitAll() returns (ok: bool)
      requires Ready() && LogApart(l, bc.abs)
      modifies bc, this`n
      ensures ok <==> old(n) == 0 || |Busy(old(bc.abs))| < NBUF
      ensures old(n) == 0 ==> bc.abs == old(bc.abs)
      ensures !ok || old(n) == 0 ==> bc.trace == old(bc.trace)
      ensures ok ==> bc.Valid() && |bc.abs.disk| == |old(bc.abs).disk| && n == 0 && AllUnpinned(bc.abs)
      ensures ok && old(n) > 0 ==>
        && CanLog(l, Unread(old(bc.abs), old(Lh())), old(Lh()))
        && bc.abs == AfterCommit(l, Unread(old(bc.abs), old(Lh())), old(Lh()))
        && bc.trace == old(bc.trace) + CommitTrace(l, old(bc.abs).view, old(Lh()))
    {
      FreeIff(bc.abs, bc.cache);
      ghost var a, bs := bc.abs, Lh();
      UnreadCanLog(l, a, bs);
      assert bs == [] ==> Unread(a, bs) == a;
      AwaitReaders();
      ok := Commit();
      if ok && |bs| > 0 {
        CommitUnpins(l, Unread(a, bs), bs);
      }
    }

    /**
     end_op: the last operation to end commits. false is a panic, of end_op
     itself during a commit, or of bget if NBUF blocks are pinned or held.
     */
    method EndOp() returns (ok: bool)
      requires Ready() && LogApart(l, bc.abs) && outstanding > 0
      modifies this, bc
      ensures outstanding == old(outstanding) - 1
      ensures ok <==> !old(committing) && (outstanding > 0 || old(n) == 0 || |Busy(old(bc.abs))| < NBUF)
      ensures old(committing) || outstanding > 0 || old(n) == 0 ==> bc.abs == old(bc.abs)
      ensures !ok || outstanding > 0 || old(n) == 0 ==> bc.trace == old(bc.trace)
      ensures ok ==> bc.Valid() && |bc.abs.disk| == |old(bc.abs).disk| && |block| == old(|block|)
      ensures ok && outstanding > 0 ==> n == old(n) && block == old(block) && !committing
      ensures ok && outstanding == 0 ==> n == 0 && !committing && AllUnpinned(bc.abs)
      ensures ok && outstanding == 0 && old(n) > 0 ==>
        && CanLog(l, Unread(old(bc.abs), old(Lh())), old(Lh()))
        && bc.abs == AfterCommit(l, Unread(old(bc.abs), old(Lh())), old(Lh()))
        && bc.trace == old(bc.trace) + CommitTrace(l, old(bc.abs).view, old(Lh()))
    {
      ghost var bs := Lh();
      outstanding := outstanding - 1;
      if committing {
        return false;
      }
      ok := true;
      if outstanding == 0 {
        committing := true;
        assert Lh() == bs && Ready();
        ok := CommitAll();
        if ok {
          committing := false;
        }
      }
    }
  }
}
