/**
 The ready heap and the two scheduling policies (kernel/proc.c:696-849): an array
 heap of process pointers with sift loops, put, get and change_sched. Under
 proc_sched.lock these run one at a time, so they are plain methods here; the
 many-CPU protocol around them is in module Scheduler. Integers are unbounded.
 */
module ReadyHeap {
  import opened Common
  import opened ProcState

  const NPROC := 64
  const NULL := -1

  /** The scheduling fields of struct proc. */
  datatype Sched = Sched(state: PState, burstApprox: int, burst: int, timeslice: int, putTimestamp: int, exeTime: int)

  // ---- the burst estimate ----

  /** C division truncates toward zero. */
  function CDiv(x: int, y: int): int
    requires y > 0
  {
    if x >= 0 then x / y else -((-x) / y)
  }

  /** Exponential averaging with weight w percent. */
  function Estimate(w: int, burst: int, approx: int): int {
    CDiv(w * burst + (100 - w) * approx, 100)
  }

  function Max(x: int, y: int): int { if x < y then y else x }

  predicate Between(w: int, burst: int, approx: int) {
    Min(burst, approx) <= Estimate(w, burst, approx) <= Max(burst, approx)
  }

  lemma MulGrows(x: int, y: int, d: nat)
    requires x <= y
    ensures x * d <= y * d
  {
    assert (y - x) * d >= 0;
    assert y * d == x * d + (y - x) * d;
  }

  lemma Scaled(w: int, d: int)
    requires 0 <= w <= 100
    ensures if d >= 0 then 0 <= w * d <= 100 * d else 100 * d <= w * d <= 0
    ensures w >= 1 && d < 0 ==> w * d <= d
  {
    if d >= 0 {
      MulGrows(0, w, d);
      MulGrows(w, 100, d);
    } else {
      MulGrows(0, w, -d);
      MulGrows(w, 100, -d);
      if w >= 1 { MulGrows(1, w, -d); }
      assert w * -d == -(w * d);
    }
  }

  lemma EstimateIs(w: int, burst: nat, approx: nat)
    requires 0 <= w <= 100
    ensures Estimate(w, burst, approx) == approx + (w * (burst - approx)) / 100
    ensures Between(w, burst, approx)
  {
    var d := burst - approx;
    var e := w * d;
    assert w * burst + (100 - w) * approx == e + 100 * approx;
    MulGrows(0, w, burst);
    MulGrows(0, 100 - w, approx);
    Scaled(w, d);
    assert (e + 100 * approx) / 100 == e / 100 + approx;
  }

  /** The estimate stays within what was measured exactly if the weight is a percentage. */
  lemma EstimateInRange(w: int)
    ensures (forall burst: nat, approx: nat :: Between(w, burst, approx)) <==> 0 <= w <= 100
  {
    if 0 <= w <= 100 {
      forall burst: nat, approx: nat ensures Between(w, burst, approx) { EstimateIs(w, burst, approx); }
    } else {
      assert w * 100 + (100 - w) * 0 == w * 100;
      assert w < 0 ==> (-(w * 100)) / 100 == -w;
      assert !Between(w, 100, 0);
    }
  }

  /** A weight of 200, which change_sched accepts for algorithm 1, doubles a burst of 100. */
  lemma EstimateLeaves()
    ensures Estimate(200, 100, 0) == 200 && !Between(200, 100, 0)
  {
    assert 200 * 100 + (100 - 200) * 0 == 20000;
  }

  /** k updates with the same burst. */
  function Repeated(w: int, burst: int, approx: int, k: nat): int {
    if k == 0 then approx else Estimate(w, burst, Repeated(w, burst, approx, k - 1))
  }

  predicate Settled(w: int, burst: int, approx: int) { 0 <= w * (burst - approx) < 100 }

  lemma DivMoves(e: int, d: int)
    requires if d >= 0 then 0 <= e <= 100 * d else 100 * d <= e <= d
    ensures (e / 100 == 0 <==> 0 <= e < 100) && (d >= 0 ==> 0 <= e / 100 <= d) && (d < 0 ==> d <= e / 100 < 0)
  {
  }

  /** An update moves toward the burst, or has nothing more to do. */
  lemma EstimateMoves(w: int, burst: nat, approx: nat)
    requires 1 <= w <= 100
    ensures
      var next := Estimate(w, burst, approx);
      && (next == approx <==> Settled(w, burst, approx))
      && (burst >= approx ==> approx <= next <= burst) && (burst < approx ==> burst <= next < approx)
  {
    EstimateIs(w, burst, approx);
    var d := burst - approx;
    Scaled(w, d);
    DivMoves(w * d, d);
  }

  lemma {:induction false} RepeatedShift(w: int, burst: int, approx: int, k: nat)
    ensures Repeated(w, burst, approx, k + 1) == Repeated(w, burst, Estimate(w, burst, approx), k)
  {
    if k > 0 { RepeatedShift(w, burst, approx, k - 1); }
  }

  function Distance(x: int, y: int): nat { if x < y then y - x else x - y }

  /** With a constant burst the estimates move in one direction and reach a fixed point, at most 100/w away. */
  lemma {:induction false} EstimateSettles(w: int, burst: nat, approx: nat) returns (k: nat)
    requires 1 <= w <= 100
    ensures k <= Distance(burst, approx)
    ensures
      var x := Repeated(w, burst, approx, k);
      Settled(w, burst, x) && Estimate(w, burst, x) == x && Min(burst, approx) <= x <= Max(burst, approx)
    ensures forall i :: 0 <= i < k ==>
      if burst >= approx then Repeated(w, burst, approx, i) < Repeated(w, burst, approx, i + 1)
      else Repeated(w, burst, approx, i) > Repeated(w, burst, approx, i + 1)
    decreases Distance(burst, approx)
  {
    EstimateMoves(w, burst, approx);
    if Settled(w, burst, approx) {
      k := 0;
    } else {
      var next := Estimate(w, burst, approx);
      var j := EstimateSettles(w, burst, next);
      k := j + 1;
      RepeatedShift(w, burst, approx, j);
      forall i | 0 <= i < k
        ensures if burst >= approx then Repeated(w, burst, approx, i) < Repeated(w, burst, approx, i + 1)
                else Repeated(w, burst, approx, i) > Repeated(w, burst, approx, i + 1)
      {
        if i > 0 {
          RepeatedShift(w, burst, approx, i - 1);
          RepeatedShift(w, burst, approx, i);
        }
      }
    }
  }

  // ---- any history of updates ----

  /** One update: the weight and the burst at that put. */
  datatype Update = Update(weight: int, burst: int)

  /** The estimate after these updates, from 0 as for a new process. */
  function EstimateAfter(us: seq<Update>): int {
    if us == [] then 0 else Estimate(us[|us| - 1].weight, us[|us| - 1].burst, EstimateAfter(us[..|us| - 1]))
  }

  function LargestBurst(us: seq<Update>): int {
    if us == [] then 0 else Max(us[|us| - 1].burst, LargestBurst(us[..|us| - 1]))
  }

  ghost predicate Regular(us: seq<Update>) {
    forall i :: 0 <= i < |us| ==> 0 <= us[i].weight <= 100 && us[i].burst >= 0
  }

  /** With percentages as weights, every estimate lies between 0 and the largest burst so far, whatever the history. */
  lemma {:induction false} EstimateHistory(us: seq<Update>)
    requires Regular(us)
    ensures 0 <= EstimateAfter(us) <= LargestBurst(us)
  {
    if us != [] {
      var before, u := us[..|us| - 1], us[|us| - 1];
      EstimateHistory(before);
      EstimateIs(u.weight, u.burst, EstimateAfter(before));
    }
  }

  // ---- the heap array ----

  function Key(procs: seq<Sched>, algo: int, p: int): int {
    if 0 <= p < |procs| then if algo == 0 then procs[p].burstApprox else procs[p].exeTime else 0
  }

  ghost predicate Entries(arr: array<int>, n: nat, procs: seq<Sched>)
    reads arr
  {
    n <= arr.Length && forall i :: 0 <= i < n ==> 0 <= arr[i] < |procs|
  }

  ghost function Swapped(s: seq<int>, i: nat, j: nat): seq<int>
    requires i < |s| && j < |s|
  {
    s[i := s[j]][j := s[i]]
  }

  lemma SwappedSame(s: seq<int>, i: nat, j: nat)
    requires i < |s| && j < |s|
    ensures multiset(Swapped(s, i, j)) == multiset(s)
  {
  }

  /** The first n entries are rearranged, the rest is untouched. */
  ghost predicate Rearranged(now: seq<int>, before: seq<int>, n: nat) {
    && n <= |now| == |before|
    && now[n..] == before[n..]
    && multiset(now[..n]) == multiset(before[..n])
  }

  lemma SwapRearranges(now: seq<int>, before: seq<int>, n: nat, i: nat, j: nat)
    requires Rearranged(now, before, n) && i < n && j < n
    ensures Rearranged(Swapped(now, i, j), before, n)
  {
    SwappedSame(now[..n], i, j);
    assert Swapped(now, i, j)[..n] == Swapped(now[..n], i, j);
  }

  method Swap(arr: array<int>, i: nat, j: nat, n: nat, ghost before: seq<int>)
    requires i < n && j < n && Rearranged(arr[..], before, n)
    modifies arr
    ensures arr[..] == Swapped(old(arr[..]), i, j) && Rearranged(arr[..], before, n)
  {
    SwapRearranges(arr[..], before, n, i, j);
    var tmp := arr[i];
    arr[i] := arr[j];
    arr[j] := tmp;
  }

  ghost function Keys(arr: seq<int>, procs: seq<Sched>, algo: int): (ks: seq<int>)
    ensures |ks| == |arr| && forall i :: 0 <= i < |arr| ==> ks[i] == Key(procs, algo, arr[i])
  {
    seq(|arr|, i requires 0 <= i < |arr| => Key(procs, algo, arr[i]))
  }

  function Parent(i: nat): nat
    requires i > 0
  {
    (i - 1) / 2
  }

  /** Entry i is not smaller than its parent. */
  predicate Edge(ks: seq<int>, i: nat)
    requires 0 < i < |ks|
  {
    ks[Parent(i)] <= ks[i]
  }

  /** Entries 0 .. n-1 are a heap. */
  ghost predicate Ordered(ks: seq<int>, n: nat)
    requires n <= |ks|
  {
    forall i :: 0 < i < n ==> Edge(ks, i)
  }

  /** Entries 0 .. m-1 are a heap except at curr, whose children also respect its parent. */
  ghost predicate OrderedBut(ks: seq<int>, m: nat, curr: nat)
    requires m <= |ks|
  {
    && (forall i :: 0 < i < m && i != curr ==> Edge(ks, i))
    && (forall i :: 0 < i < m && curr > 0 && Parent(i) == curr ==> ks[Parent(curr)] <= ks[i])
  }

  lemma SwapUp(ks: seq<int>, m: nat, curr: nat)
    requires m <= |ks| && 0 < curr < m && OrderedBut(ks, m, curr) && ks[curr] < ks[Parent(curr)]
    ensures OrderedBut(Swapped(ks, curr, Parent(curr)), m, Parent(curr))
  {
    var p := Parent(curr);
    var r := Swapped(ks, curr, p);
    forall i | 0 < i < m && i != p ensures Edge(r, i) {
      assert i != curr ==> Edge(ks, i);
    }
    forall i | 0 < i < m && p > 0 && Parent(i) == p ensures r[Parent(p)] <= r[i] {
      assert Edge(ks, p);
      assert i != curr ==> Edge(ks, i);
    }
  }

  /** The first exchange of heapify_up, with slot m/2. */
  lemma FirstSwap(ks: seq<int>, m: nat)
    requires 0 < m < |ks| && Ordered(ks, m) && ks[m] < ks[m / 2]
    ensures OrderedBut(Swapped(ks, m, m / 2), m, m / 2)
  {
    var r := Swapped(ks, m, m / 2);
    forall i | 0 < i < m && i != m / 2 ensures Edge(r, i) { assert Edge(ks, i); }
    assert m <= 2 * (m / 2) + 1;
  }

  /** The slots that a new entry at slot m passes: m, m/2, and then one parent after the other. */
  predicate OnPath(m: nat, i: nat) { i == m || i == m / 2 || (m / 2 > 0 && i <= Parent(m / 2)) }

  /** What a new entry at slot m leaves alone, and that it only makes the other keys smaller. */
  ghost predicate Above(ks: seq<int>, before: seq<int>, m: nat)
    requires m < |ks| == |before|
  {
    && (forall i :: 0 <= i < m && !OnPath(m, i) ==> ks[i] == before[i])
    && (Ordered(before, m) ==> forall i :: 0 <= i < m ==> ks[i] <= before[i])
  }

  /** What heapify_up has done when it comes to slot curr; m is the slot of the new entry. */
  ghost predicate Sifting(ks: seq<int>, before: seq<int>, m: nat, curr: nat, parent: nat) {
    && 0 < m < |ks| == |before| && parent < curr <= m && Above(ks, before, m)
    && if curr == m then ks == before && parent == m / 2
       else
         && parent == Parent(curr) && OnPath(m, curr) && before[m] < before[m / 2] == ks[m]
         && (forall i :: 0 <= i < curr ==> ks[i] == before[i])
         && (Ordered(before, m) ==> OrderedBut(ks, m, curr))
  }

  /** The new entry m is in its place, as far as entries 0 .. m-1 are concerned. */
  ghost predicate Sifted(ks: seq<int>, before: seq<int>, m: nat) {
    && 0 < m < |ks| == |before| && Above(ks, before, m)
    && (Ordered(before, m) ==> Ordered(ks, m))
    && ks[m] == Max(before[m], before[m / 2])
  }

  lemma SiftStep(ks: seq<int>, before: seq<int>, m: nat, curr: nat, parent: nat)
    requires Sifting(ks, before, m, curr, parent) && ks[curr] < ks[parent]
    ensures
      var r := Swapped(ks, curr, parent);
      if parent == 0 then Sifted(r, before, m) else Sifting(r, before, m, parent, Parent(parent))
  {
    assert OnPath(m, parent);
    if Ordered(before, m) {
      assert curr < m ==> Edge(before, curr);
      if curr == m { FirstSwap(ks, m); } else { SwapUp(ks, m, curr); }
    }
  }

  lemma SiftStop(ks: seq<int>, before: seq<int>, m: nat, curr: nat, parent: nat)
    requires Sifting(ks, before, m, curr, parent) && ks[curr] >= ks[parent]
    ensures Sifted(ks, before, m)
  {
    if Ordered(before, m) && curr < m {
      forall i | 0 < i < m ensures Edge(ks, i) { }
    }
  }

  lemma KeysSwapped(arr: seq<int>, procs: seq<Sched>, algo: int, i: nat, j: nat)
    requires i < |arr| && j < |arr|
    ensures Keys(Swapped(arr, i, j), procs, algo) == Swapped(Keys(arr, procs, algo), i, j)
  {
  }

  /**
   heapify_up of n keys between two iterations, and after the last. The quantifier has
   one instance; it keeps Sifting folded where only the iteration as a whole matters.
   */
  ghost predicate Sifts(ks: seq<int>, before: seq<int>, n: nat, curr: nat, parent: nat) {
    forall m :: m == n - 1 ==> Sifting(ks, before, m, curr, parent)
  }

  /** heapify_up is done; the quantifier keeps Sifted folded in the same way. */
  ghost predicate Rests(ks: seq<int>, before: seq<int>, n: nat) {
    forall m :: m == n - 1 ==> Sifted(ks, before, m)
  }

  lemma SiftsAt(ks: seq<int>, before: seq<int>, n: nat, curr: nat, parent: nat)
    requires n >= 2 && Sifts(ks, before, n, curr, parent)
    ensures parent < curr < n <= |ks|
  {
    assert Sifting(ks, before, n - 1, curr, parent);
  }

  lemma SiftsSwap(ks: seq<int>, before: seq<int>, n: nat, curr: nat, parent: nat)
    requires n >= 2 && parent < curr < n <= |ks| && Sifts(ks, before, n, curr, parent) && ks[curr] < ks[parent]
    ensures
      var r := Swapped(ks, curr, parent);
      if parent == 0 then Rests(r, before, n) else Sifts(r, before, n, parent, Parent(parent))
  {
    SiftStep(ks, before, n - 1, curr, parent);
  }

  lemma SiftsStop(ks: seq<int>, before: seq<int>, n: nat, curr: nat, parent: nat)
    requires n >= 2 && parent < curr < n <= |ks| && Sifts(ks, before, n, curr, parent) && ks[curr] >= ks[parent]
    ensures Rests(ks, before, n)
  {
    SiftStop(ks, before, n - 1, curr, parent);
  }

  ghost predicate Underway(arr: seq<int>, before: seq<int>, n: nat, procs: seq<Sched>, algo: int, curr: nat,
                           parent: nat)
  {
    Rearranged(arr, before, n) && Sifts(Keys(arr, procs, algo), Keys(before, procs, algo), n, curr, parent)
  }

  ghost predicate Arrived(arr: seq<int>, before: seq<int>, n: nat, procs: seq<Sched>, algo: int) {
    Rearranged(arr, before, n) && Rests(Keys(arr, procs, algo), Keys(before, procs, algo), n)
  }

  lemma UnderwaySwap(arr: seq<int>, before: seq<int>, n: nat, procs: seq<Sched>, algo: int, curr: nat, parent: nat)
    requires n >= 2 && parent < curr < n <= |arr| && Underway(arr, before, n, procs, algo, curr, parent)
    requires Key(procs, algo, arr[curr]) < Key(procs, algo, arr[parent])
    ensures
      var r := Swapped(arr, curr, parent);
      if parent == 0 then Arrived(r, before, n, procs, algo)
        else Underway(r, before, n, procs, algo, parent, Parent(parent))
  {
    SiftsSwap(Keys(arr, procs, algo), Keys(before, procs, algo), n, curr, parent);
    KeysSwapped(arr, procs, algo, curr, parent);
    SwapRearranges(arr, before, n, curr, parent);
  }

  // ---- the way up ----

  predicate MovesAt(now: seq<int>, before: seq<int>, way: seq<nat>, j: nat)
    requires j + 1 < |way|
  {
    way[j] < |now| && way[j + 1] < |before| && now[way[j]] == before[way[j + 1]]
  }

  /** Each entry on the way has moved to the slot before, the first to the last slot, and no other has moved. */
  ghost predicate Shifted(now: seq<int>, before: seq<int>, way: seq<nat>) {
    && |way| > 0 && |now| == |before| && (forall j :: 0 <= j < |way| ==> way[j] < |now|)
    && (forall j :: 0 <= j < |way| - 1 ==> MovesAt(now, before, way, j))
    && now[way[|way| - 1]] == before[way[0]]
    && forall c :: 0 <= c < |now| && c !in way ==> now[c] == before[c]
  }

  lemma ShiftedOnce(now: seq<int>, now': seq<int>, before: seq<int>, way: seq<nat>)
    requires Shifted(now, before, way) && Shifted(now', before, way)
    ensures now == now'
  {
    forall c | 0 <= c < |now| ensures now[c] == now'[c] {
      if c in way {
        var j :| 0 <= j < |way| && way[j] == c;
        if j < |way| - 1 { assert MovesAt(now, before, way, j) && MovesAt(now', before, way, j); }
      }
    }
  }

  /** One exchange: the entry has gone one slot further. */
  lemma ShiftOn(now: seq<int>, before: seq<int>, way: seq<nat>, d: nat)
    requires Shifted(now, before, way) && d < |now| && d !in way
    requires forall j :: 0 <= j < |way| - 1 ==> way[j] != way[|way| - 1]
    ensures now[d] == before[d] && Shifted(Swapped(now, way[|way| - 1], d), before, way + [d])
  {
    var c, next, more := way[|way| - 1], Swapped(now, way[|way| - 1], d), way + [d];
    forall j | 0 <= j < |more| - 1 ensures MovesAt(next, before, more, j) {
      assert j + 1 < |way| ==> MovesAt(now, before, way, j) && way[j] != c && way[j] in way;
    }
    forall x | 0 <= x < |now| && x !in more ensures next[x] == before[x] { assert c in way && x !in way; }
  }

  /** The slot that heapify_up compares slot c with, for a new entry at slot m: half of m, and then the parents. */
  function UpFrom(m: nat, c: nat): nat
    requires 0 < c
  {
    if c == m then m / 2 else Parent(c)
  }

  /** A new entry at slot m goes on from place j of the way. */
  ghost predicate UpStep(ks: seq<int>, m: nat, way: seq<nat>, j: nat)
    requires j + 1 < |way|
  {
    0 < way[j] <= m < |ks| && way[j + 1] == UpFrom(m, way[j]) && ks[m] < ks[way[j + 1]]
  }

  /** The slots that the new entry at slot m passes, each holding a larger key. */
  ghost predicate WayUpwards(ks: seq<int>, m: nat, way: seq<nat>) {
    && |way| > 0 && way[0] == m < |ks|
    && forall j :: 0 <= j < |way| - 1 ==> UpStep(ks, m, way, j)
  }

  /** What heapify_up does with the new entry, the last of n; the quantifier has one instance, as before. */
  ghost predicate Rose(now: seq<int>, before: seq<int>, n: nat, procs: seq<Sched>, algo: int, way: seq<nat>) {
    forall k: nat :: k == n ==> RoseAlong(now, before, k, procs, algo, way)
  }

  ghost predicate RoseAlong(now: seq<int>, before: seq<int>, n: nat, procs: seq<Sched>, algo: int, way: seq<nat>) {
    && 0 < n <= |before| && WayUpwards(Keys(before, procs, algo), n - 1, way) && Shifted(now, before, way)
    && var c, ks := way[|way| - 1], Keys(before, procs, algo);
       c == 0 || (c < n && ks[UpFrom(n - 1, c)] <= ks[n - 1])
  }

  /** The new entry has come to slot curr. */
  ghost predicate Rising(now: seq<int>, before: seq<int>, n: nat, procs: seq<Sched>, algo: int, way: seq<nat>,
                         curr: nat)
  {
    && 0 < n <= |before| && WayUpwards(Keys(before, procs, algo), n - 1, way) && Shifted(now, before, way)
    && way[|way| - 1] == curr < n
  }

  lemma {:induction false} UpwardsFalls(ks: seq<int>, m: nat, way: seq<nat>, j: nat)
    requires WayUpwards(ks, m, way) && j < |way|
    ensures way[j] <= m && forall k :: 0 <= k < j ==> way[k] > way[j]
  {
    if j > 0 {
      UpwardsFalls(ks, m, way, j - 1);
      assert UpStep(ks, m, way, j - 1);
    }
  }

  lemma RisesOn(now: seq<int>, before: seq<int>, n: nat, procs: seq<Sched>, algo: int, way: seq<nat>, curr: nat)
    requires Rising(now, before, n, procs, algo, way, curr) && curr > 0
    ensures
      var d := UpFrom(n - 1, curr);
      && d < curr < n <= |now| == |before| && now[curr] == before[n - 1] && now[d] == before[d]
      && (Key(procs, algo, before[n - 1]) < Key(procs, algo, before[d]) ==>
          Rising(Swapped(now, curr, d), before, n, procs, algo, way + [d], d))
  {
    var d, ks := UpFrom(n - 1, curr), Keys(before, procs, algo);
    UpwardsFalls(ks, n - 1, way, |way| - 1);
    ShiftOn(now, before, way, d);
    if Key(procs, algo, before[n - 1]) < Key(procs, algo, before[d]) {
      var more, m := way + [d], n - 1;
      forall j | 0 <= j < |more| - 1 ensures UpStep(ks, m, more, j) {
        assert j + 1 < |way| ==> UpStep(ks, m, way, j);
      }
    }
  }

  /** Where heapify_up is: the entries and keys, and the way of the new entry. */
  ghost predicate GoingUp(arr: seq<int>, before: seq<int>, n: nat, procs: seq<Sched>, algo: int, curr: nat, parent: nat,
                          way: seq<nat>)
  {
    && Underway(arr, before, n, procs, algo, curr, parent) && Rising(arr, before, n, procs, algo, way, curr)
    && curr > 0 && parent == UpFrom(n - 1, curr)
  }

  // The quantifiers have one instance; they keep GoingUp and GoneUp folded in the loop.

  ghost predicate Climbs(arr: seq<int>, before: seq<int>, n: nat, procs: seq<Sched>, algo: int, curr: nat, parent: nat,
                         way: seq<nat>)
  {
    forall c: nat :: c == curr ==> GoingUp(arr, before, n, procs, algo, c, parent, way)
  }

  ghost predicate GoneUp(arr: seq<int>, before: seq<int>, n: nat, procs: seq<Sched>, algo: int, way: seq<nat>) {
    Rearranged(arr, before, n) && Rose(arr, before, n, procs, algo, way) && Arrived(arr, before, n, procs, algo)
  }

  ghost predicate Climbed(arr: seq<int>, before: seq<int>, n: nat, procs: seq<Sched>, algo: int, way: seq<nat>) {
    forall k: nat :: k == n ==> GoneUp(arr, before, k, procs, algo, way)
  }

  lemma ClimbStarts(a: seq<int>, n: nat, procs: seq<Sched>, algo: int)
    requires 1 < n <= |a|
    ensures Climbs(a, a, n, procs, algo, n - 1, (n - 1) / 2, [n - 1])
  {
    var ks := Keys(a, procs, algo);
    assert Sifting(ks, ks, n - 1, n - 1, (n - 1) / 2);
  }

  /** The new entry is smaller than the one it is compared with. */
  lemma ClimbsOn(arr: seq<int>, before: seq<int>, n: nat, procs: seq<Sched>, algo: int, curr: nat, parent: nat,
                 way: seq<nat>)
    requires n >= 2 && Climbs(arr, before, n, procs, algo, curr, parent, way)
    ensures parent < curr < n <= |arr| == |before| && Rearranged(arr, before, n)
    ensures Key(procs, algo, arr[curr]) < Key(procs, algo, arr[parent]) ==>
      var r := Swapped(arr, curr, parent);
      if parent == 0 then Climbed(r, before, n, procs, algo, way + [parent])
      else Climbs(r, before, n, procs, algo, parent, Parent(parent), way + [parent])
    ensures Key(procs, algo, arr[curr]) >= Key(procs, algo, arr[parent]) ==> Climbed(arr, before, n, procs, algo, way)
  {
    assert GoingUp(arr, before, n, procs, algo, curr, parent, way);
    SiftsAt(Keys(arr, procs, algo), Keys(before, procs, algo), n, curr, parent);
    RisesOn(arr, before, n, procs, algo, way, curr);
    if Key(procs, algo, arr[curr]) < Key(procs, algo, arr[parent]) {
      UnderwaySwap(arr, before, n, procs, algo, curr, parent);
    } else {
      SiftsStop(Keys(arr, procs, algo), Keys(before, procs, algo), n, curr, parent);
    }
  }

  /**
   heapify_up after a new entry at slot n-1. Its first parent is slot (n-1)/2, which
   is the real one only if n is even.
   */
  method HeapifyUp(arr: array<int>, n: nat, algo: int, procs: seq<Sched>) returns (ghost way: seq<nat>)
    requires 1 <= n <= arr.Length
    modifies arr
    ensures Rearranged(arr[..], old(arr[..]), n) && Rose(arr[..], old(arr[..]), n, procs, algo, way)
    ensures n > 1 ==> Arrived(arr[..], old(arr[..]), n, procs, algo)
  {
    way := [n - 1];
    if n == 1 {
      return;
    }
    ghost var before := arr[..];
    var curr: nat := n - 1;
    var parent: nat := curr / 2;
    ClimbStarts(before, n, procs, algo);
    while true
      invariant Climbs(arr[..], before, n, procs, algo, curr, parent, way)
      decreases curr
    {
      ClimbsOn(arr[..], before, n, procs, algo, curr, parent, way);
      if Key(procs, algo, arr[curr]) < Key(procs, algo, arr[parent]) {
        Swap(arr, curr, parent, n, before);
        way := way + [parent];
      } else {
        break;
      }
      if parent == 0 {
        break;
      }
      curr := parent;
      parent := (curr - 1) / 2;
    }
    assert GoneUp(arr[..], before, n, procs, algo, way);
  }

  lemma SiftedOrder(ks: seq<int>, before: seq<int>, m: nat)
    requires Sifted(ks, before, m) && Ordered(before, m)
    ensures Ordered(ks, m + 1) <==> before[Parent(m)] <= Max(before[m], before[m / 2])
  {
    assert Ordered(ks, m + 1) <==> Edge(ks, m);
    assert m > 1 ==> Edge(before, m / 2);
  }

  /**
   The heap order after heapify_up: kept exactly if the real parent of the new slot
   is not larger than the larger of the new entry and the one it was compared with.
   */
  lemma HeapOrderAfterUp(arr: seq<int>, before: seq<int>, n: nat, procs: seq<Sched>, algo: int)
    requires n >= 2 && Arrived(arr, before, n, procs, algo) && Ordered(Keys(before, procs, algo), n - 1)
    ensures
      var was := Keys(before, procs, algo);
      Ordered(Keys(arr, procs, algo), n) <==> was[Parent(n - 1)] <= Max(was[n - 1], was[(n - 1) / 2])
  {
    SiftedOrder(Keys(arr, procs, algo), Keys(before, procs, algo), n - 1);
  }

  // ---- the way down ----

  /** Slot d is where an entry x at slot c goes next: the left child first, the right one by the burst estimate. */
  ghost predicate DownTo(a: seq<int>, n: nat, procs: seq<Sched>, algo: int, x: int, c: nat, d: nat)
    requires n <= |a|
  {
    var l, r := 2 * c + 1, 2 * c + 2;
    if l < n && Key(procs, algo, a[l]) < Key(procs, algo, x) then d == l
    else d == r < n && Key(procs, 0, a[r]) < Key(procs, 0, x)
  }

  /** An entry x goes no further than slot c. */
  ghost predicate DownEnds(a: seq<int>, n: nat, procs: seq<Sched>, algo: int, x: int, c: nat)
    requires n <= |a|
  {
    var l, r := 2 * c + 1, 2 * c + 2;
    (l < n ==> Key(procs, algo, a[l]) >= Key(procs, algo, x)) && (r < n ==> Key(procs, 0, a[r]) >= Key(procs, 0, x))
  }

  ghost predicate DownAt(a: seq<int>, n: nat, procs: seq<Sched>, algo: int, way: seq<nat>, j: nat)
    requires j + 1 < |way| && way[0] < n <= |a|
  {
    DownTo(a, n, procs, algo, a[way[0]], way[j], way[j + 1])
  }

  /** The slots that the entry at the first of them passes, each a child of the one before. */
  ghost predicate Way(a: seq<int>, n: nat, procs: seq<Sched>, algo: int, way: seq<nat>) {
    && |way| > 0 && way[0] < n <= |a|
    && forall j :: 0 <= j < |way| - 1 ==> DownAt(a, n, procs, algo, way, j)
  }

  /** What heapify_down does with the entry at slot i; the quantifier has one instance and keeps FellAlong folded. */
  ghost predicate Fell(now: seq<int>, before: seq<int>, n: nat, procs: seq<Sched>, algo: int, i: nat, way: seq<nat>) {
    forall k: nat :: k == n ==> FellAlong(now, before, k, procs, algo, i, way)
  }

  ghost predicate FellAlong(now: seq<int>, before: seq<int>, n: nat, procs: seq<Sched>, algo: int, i: nat,
                            way: seq<nat>)
  {
    if n == 0 then now == before
    else
      && Way(before, n, procs, algo, way) && way[0] == i && Shifted(now, before, way)
      && DownEnds(before, n, procs, algo, before[i], way[|way| - 1])
  }

  lemma {:induction false} WayUp(a: seq<int>, n: nat, procs: seq<Sched>, algo: int, way: seq<nat>, j: nat)
    requires Way(a, n, procs, algo, way) && j < |way|
    ensures way[j] < n && forall k :: 0 <= k < j ==> way[k] < way[j]
  {
    if j > 0 {
      WayUp(a, n, procs, algo, way, j - 1);
      assert DownAt(a, n, procs, algo, way, j - 1);
    }
  }

  /** Two ways of the same entry agree as far as both go. */
  lemma {:induction false} WaysAgree(a: seq<int>, n: nat, procs: seq<Sched>, algo: int, way: seq<nat>, other: seq<nat>,
                                     j: nat)
    requires Way(a, n, procs, algo, way) && Way(a, n, procs, algo, other) && way[0] == other[0]
    requires j < |way| && j < |other|
    ensures way[..j + 1] == other[..j + 1]
  {
    if j > 0 {
      WaysAgree(a, n, procs, algo, way, other, j - 1);
      assert way[j - 1] == way[..j][j - 1] == other[j - 1];
      assert DownAt(a, n, procs, algo, way, j - 1) && DownAt(a, n, procs, algo, other, j - 1);
      assert way[..j + 1] == way[..j] + [way[j]] && other[..j + 1] == other[..j] + [other[j]];
    }
  }

  lemma NotBeyond(a: seq<int>, n: nat, procs: seq<Sched>, algo: int, way: seq<nat>, j: nat)
    requires j + 1 < |way| && way[0] < n <= |a| && DownEnds(a, n, procs, algo, a[way[0]], way[j])
    ensures !DownAt(a, n, procs, algo, way, j)
  {
  }

  lemma NoLonger(now: seq<int>, before: seq<int>, n: nat, procs: seq<Sched>, algo: int, i: nat, way: seq<nat>,
                 other: seq<nat>)
    requires 0 < n && FellAlong(now, before, n, procs, algo, i, way)
    requires Way(before, n, procs, algo, other) && other[0] == i
    ensures |other| <= |way|
  {
    if |way| < |other| {
      var j := |way| - 1;
      WaysAgree(before, n, procs, algo, way, other, j);
      assert way[j] == way[..j + 1][j] == other[j];
      NotBeyond(before, n, procs, algo, other, j);
    }
  }

  /** The way of heapify_down and what it leaves are determined by the array before the call. */
  lemma OneWay(now: seq<int>, now': seq<int>, before: seq<int>, n: nat, procs: seq<Sched>, algo: int, i: nat,
               way: seq<nat>, way': seq<nat>)
    requires 0 < n && Fell(now, before, n, procs, algo, i, way) && Fell(now', before, n, procs, algo, i, way')
    ensures way == way' && now == now'
  {
    assert FellAlong(now, before, n, procs, algo, i, way) && FellAlong(now', before, n, procs, algo, i, way');
    NoLonger(now, before, n, procs, algo, i, way, way');
    NoLonger(now', before, n, procs, algo, i, way', way);
    WaysAgree(before, n, procs, algo, way, way', |way| - 1);
    assert way == way[..|way|] && way' == way'[..|way'|];
    ShiftedOnce(now, now', before, way);
  }

  lemma WayOn(a: seq<int>, n: nat, procs: seq<Sched>, algo: int, way: seq<nat>, d: nat)
    requires Way(a, n, procs, algo, way) && DownTo(a, n, procs, algo, a[way[0]], way[|way| - 1], d)
    ensures Way(a, n, procs, algo, way + [d]) && way[|way| - 1] < d < n
  {
    var more := way + [d];
    forall j | 0 <= j < |more| - 1 ensures DownAt(a, n, procs, algo, more, j) {
      if j + 1 < |way| { assert DownAt(a, n, procs, algo, way, j); }
    }
  }

  ghost predicate FallingTo(now: seq<int>, before: seq<int>, n: nat, procs: seq<Sched>, algo: int, i: nat,
                            way: seq<nat>)
  {
    Way(before, n, procs, algo, way) && way[0] == i && Shifted(now, before, way)
  }

  /** The entry has come to the end of way; the quantifier has one instance and keeps FallingTo folded. */
  ghost predicate Falling(now: seq<int>, before: seq<int>, n: nat, procs: seq<Sched>, algo: int, i: nat,
                          way: seq<nat>)
  {
    |way| > 0 && forall k: nat :: k == n ==> FallingTo(now, before, k, procs, algo, i, way)
  }

  lemma FallStarts(a: seq<int>, n: nat, procs: seq<Sched>, algo: int, i: nat)
    requires i < n <= |a|
    ensures Falling(a, a, n, procs, algo, i, [i])
  {
  }

  /** Where the entry stays. */
  lemma FallEnds(now: seq<int>, before: seq<int>, n: nat, procs: seq<Sched>, algo: int, i: nat, way: seq<nat>)
    requires Falling(now, before, n, procs, algo, i, way) && i < n <= |before|
    requires DownEnds(before, n, procs, algo, before[i], way[|way| - 1])
    ensures Fell(now, before, n, procs, algo, i, way)
  {
    assert FallingTo(now, before, n, procs, algo, i, way);
  }

  lemma FallingAt(now: seq<int>, before: seq<int>, n: nat, procs: seq<Sched>, algo: int, i: nat, way: seq<nat>)
    requires Falling(now, before, n, procs, algo, i, way)
    ensures
      var c := way[|way| - 1];
      && c < n <= |now| == |before| && i < n && now[c] == before[i]
      && (forall d :: c < d < n ==> now[d] == before[d]) && forall j :: 0 <= j < |way| ==> way[j] <= c
  {
    assert FallingTo(now, before, n, procs, algo, i, way);
    WayUp(before, n, procs, algo, way, |way| - 1);
  }

  lemma FallsOn(now: seq<int>, before: seq<int>, n: nat, procs: seq<Sched>, algo: int, i: nat, way: seq<nat>, d: nat)
    requires Falling(now, before, n, procs, algo, i, way) && i < n <= |before| == |now| && way[|way| - 1] < n
    requires DownTo(before, n, procs, algo, before[i], way[|way| - 1], d)
    ensures way[|way| - 1] < d < n && Falling(Swapped(now, way[|way| - 1], d), before, n, procs, algo, i, way + [d])
  {
    assert FallingTo(now, before, n, procs, algo, i, way);
    WayUp(before, n, procs, algo, way, |way| - 1);
    WayOn(before, n, procs, algo, way, d);
    ShiftOn(now, before, way, d);
  }

  /** One iteration of heapify_down_i, at slot curr: the next slot, or curr if the loop ends. */
  method SinkOne(arr: array<int>, n: nat, algo: int, procs: seq<Sched>, curr: nat, ghost before: seq<int>, ghost i: nat,
                 ghost way: seq<nat>) returns (next: nat)
    requires n <= arr.Length && Rearranged(arr[..], before, n)
    requires Falling(arr[..], before, n, procs, algo, i, way) && curr == way[|way| - 1]
    modifies arr
    ensures Rearranged(arr[..], before, n) && curr <= next && curr < n
    ensures next == curr ==> Fell(arr[..], before, n, procs, algo, i, way)
    ensures next != curr ==> next < n && Falling(arr[..], before, n, procs, algo, i, way + [next])
  {
    FallingAt(arr[..], before, n, procs, algo, i, way);
    var leftChild := curr * 2 + 1;
    var rightChild := curr * 2 + 2;
    next := curr;
    if leftChild < n && Key(procs, algo, arr[curr]) > Key(procs, algo, arr[leftChild]) {
      FallsOn(arr[..], before, n, procs, algo, i, way, leftChild);
      Swap(arr, curr, leftChild, n, before);
      next := leftChild;
    } else if rightChild < n && Key(procs, 0, arr[curr]) > Key(procs, 0, arr[rightChild]) {
      FallsOn(arr[..], before, n, procs, algo, i, way, rightChild);
      Swap(arr, curr, rightChild, n, before);
      next := rightChild;
    } else {
      FallEnds(arr[..], before, n, procs, algo, i, way);
    }
  }

  /** heapify_down_i; way is the way that the entry at slot i goes. */
  method HeapifyDown(arr: array<int>, n: nat, i: nat, algo: int, procs: seq<Sched>) returns (ghost way: seq<nat>)
    requires n <= arr.Length && (n > 0 ==> i < n) && Entries(arr, n, procs)
    modifies arr
    ensures Rearranged(arr[..], old(arr[..]), n) && Fell(arr[..], old(arr[..]), n, procs, algo, i, way)
    ensures |way| > 0
  {
    way := [i];
    ghost var before := arr[..];
    if n > 0 { FallStarts(before, n, procs, algo, i); }
    if n <= 1 {
      if n == 1 { FallEnds(before, before, n, procs, algo, i, way); }
      return;
    }
    var curr := i;
    while true
      invariant Rearranged(arr[..], before, n) && curr < n
      invariant Falling(arr[..], before, n, procs, algo, i, way) && curr == way[|way| - 1]
      decreases n - curr
    {
      var next := SinkOne(arr, n, algo, procs, curr, before, i, way);
      if next == curr {
        break;
      }
      curr := next;
      way := way + [curr];
    }
  }

  // ---- heap order after the way down ----

  /** The other child of the parent of c. */
  function Sibling(c: nat): nat
    requires c > 0
  {
    if c % 2 == 1 then c + 1 else c - 1
  }

  /** Entries 0 .. n-1 are a heap but for the root. */
  ghost predicate OrderedBelow(ks: seq<int>, n: nat)
    requires n <= |ks|
  {
    forall i :: 0 < i < n && Parent(i) != 0 ==> Edge(ks, i)
  }

  /** The way passes no entry that has a smaller sibling. */
  ghost predicate NoSmaller(ks: seq<int>, n: nat, way: seq<nat>)
    requires n <= |ks|
  {
    forall j :: 0 < j < |way| && way[j] > 0 && way[j] < n && Sibling(way[j]) < n ==> ks[way[j]] <= ks[Sibling(way[j])]
  }

  /** The entry from the root is not smaller than the last it passed, and not larger than what is below it. */
  ghost predicate Settles(ks: seq<int>, n: nat, way: seq<nat>)
    requires 0 < n <= |ks| && |way| > 0
  {
    var c := way[|way| - 1];
    && (0 < c < n ==> ks[c] <= ks[0])
    && (2 * c + 1 < n ==> ks[0] <= ks[2 * c + 1]) && (2 * c + 2 < n ==> ks[0] <= ks[2 * c + 2])
  }

  predicate Link(way: seq<nat>, n: nat, k: nat)
    requires k + 1 < |way|
  {
    0 < way[k + 1] < n && Parent(way[k + 1]) == way[k]
  }

  /** way leads from the root from child to child. */
  ghost predicate Chain(way: seq<nat>, n: nat) {
    && |way| > 0 && way[0] == 0
    && forall k :: 0 <= k < |way| - 1 ==> Link(way, n, k)
  }

  lemma WayParent(a: seq<int>, n: nat, procs: seq<Sched>, algo: int, way: seq<nat>, j: nat)
    requires Way(a, n, procs, algo, way) && j < |way| - 1
    ensures Link(way, n, j)
  {
    WayUp(a, n, procs, algo, way, j + 1);
    assert DownAt(a, n, procs, algo, way, j);
  }

  /** Keys move with their entries. */
  lemma KeysShifted(now: seq<int>, before: seq<int>, way: seq<nat>, procs: seq<Sched>, algo: int)
    requires Shifted(now, before, way)
    ensures Shifted(Keys(now, procs, algo), Keys(before, procs, algo), way)
  {
    var ks, was := Keys(now, procs, algo), Keys(before, procs, algo);
    forall j | 0 <= j < |way| - 1 ensures MovesAt(ks, was, way, j) { assert MovesAt(now, before, way, j); }
  }

  /** The edge above slot i after the fall, if i is on the way. */
  lemma EdgeOn(ks: seq<int>, was: seq<int>, n: nat, way: seq<nat>, j: nat)
    requires n <= |was| && Shifted(ks, was, way) && OrderedBelow(was, n) && Chain(way, n) && 0 < j < |way|
    ensures 0 < way[j] < n && (Edge(ks, way[j]) <==> j + 1 < |way| || was[way[j]] <= was[0])
  {
    assert MovesAt(ks, was, way, j - 1) && Link(way, n, j - 1);
    if j + 1 < |way| {
      assert MovesAt(ks, was, way, j) && Link(way, n, j);
      assert Edge(was, way[j + 1]);
    }
  }

  /** And if only its parent is. */
  lemma EdgeBeside(ks: seq<int>, was: seq<int>, n: nat, way: seq<nat>, j: nat, i: nat)
    requires n <= |was| && Shifted(ks, was, way) && Chain(way, n) && j < |way| && 0 < i < n && i !in way
    requires Parent(i) == way[j]
    ensures Edge(ks, i) <==> (if j + 1 < |way| then was[way[j + 1]] else was[0]) <= was[i]
    ensures j + 1 < |way| ==> 0 < way[j + 1] < n && i == Sibling(way[j + 1])
  {
    if j + 1 < |way| { assert MovesAt(ks, was, way, j) && Link(way, n, j); }
  }

  /**
   Heap order after heapify_down from the root: kept exactly if the way passes no entry
   with a smaller sibling and the moved entry settles.
   */
  lemma HeapOrderAfterDown(arr: seq<int>, before: seq<int>, n: nat, procs: seq<Sched>, algo: int, way: seq<nat>)
    requires 0 < n <= |before| && |way| > 0 && Fell(arr, before, n, procs, algo, 0, way)
    requires OrderedBelow(Keys(before, procs, algo), n)
    ensures
      var was := Keys(before, procs, algo);
      |arr| == |before| && (Ordered(Keys(arr, procs, algo), n) <==> NoSmaller(was, n, way) && Settles(was, n, way))
  {
    assert FellAlong(arr, before, n, procs, algo, 0, way);
    var ks, was := Keys(arr, procs, algo), Keys(before, procs, algo);
    KeysShifted(arr, before, way, procs, algo);
    forall k | 0 <= k < |way| - 1 ensures Link(way, n, k) {
      WayParent(before, n, procs, algo, way, k);
    }
    if NoSmaller(was, n, way) && Settles(was, n, way) {
      OrderKept(ks, was, n, way);
    } else {
      OrderBroken(ks, was, n, way);
    }
  }

  lemma OrderKept(ks: seq<int>, was: seq<int>, n: nat, way: seq<nat>)
    requires 0 < n <= |was| && Shifted(ks, was, way) && OrderedBelow(was, n)
    requires Chain(way, n)
    requires NoSmaller(was, n, way) && Settles(was, n, way)
    ensures Ordered(ks, n)
  {
    forall i | 0 < i < n ensures Edge(ks, i) {
      if i in way {
        var j :| 0 <= j < |way| && way[j] == i;
        EdgeOn(ks, was, n, way, j);
      } else if Parent(i) in way {
        var j :| 0 <= j < |way| && way[j] == Parent(i);
        EdgeBeside(ks, was, n, way, j, i);
        assert j + 1 < |way| ==> was[way[j + 1]] <= was[Sibling(way[j + 1])];
      } else {
        assert Edge(was, i);
      }
    }
  }

  lemma OrderBroken(ks: seq<int>, was: seq<int>, n: nat, way: seq<nat>)
    requires 0 < n <= |was| && Shifted(ks, was, way) && OrderedBelow(was, n)
    requires Chain(way, n)
    requires !NoSmaller(was, n, way) || !Settles(was, n, way)
    ensures !Ordered(ks, n)
  {
    var last := |way| - 1;
    if !NoSmaller(was, n, way) {
      var j :| 0 < j < |way| && way[j] > 0 && way[j] < n && Sibling(way[j]) < n && was[way[j]] > was[Sibling(way[j])];
      NotOnWay(way, n, j);
      EdgeBeside(ks, was, n, way, j - 1, Sibling(way[j]));
    } else if 0 < way[last] && was[way[last]] > was[0] {
      EdgeOn(ks, was, n, way, last);
    } else {
      var i := if 2 * way[last] + 1 < n && was[0] > was[2 * way[last] + 1] then 2 * way[last] + 1
        else 2 * way[last] + 2;
      BelowWay(way, n, i);
      EdgeBeside(ks, was, n, way, last, i);
    }
  }

  lemma {:induction false} WayGrows(way: seq<nat>, n: nat, j: nat)
    requires j < |way| && Chain(way, n)
    ensures forall k :: 0 <= k < j ==> way[k] < way[j]
  {
    if j > 0 {
      WayGrows(way, n, j - 1);
      assert Link(way, n, j - 1);
    }
  }

  lemma NotOnWay(way: seq<nat>, n: nat, j: nat)
    requires 0 < j < |way| && Chain(way, n)
    ensures way[j] > 0 && Sibling(way[j]) !in way && Parent(Sibling(way[j])) == way[j - 1]
  {
    assert Link(way, n, j - 1);
    forall k | 0 <= k < |way| ensures way[k] != Sibling(way[j]) {
      if way[k] == Sibling(way[j]) && k > 0 {
        assert Link(way, n, k - 1);
        if k < j { WayGrows(way, n, j - 1); } else if j < k { WayGrows(way, n, k - 1); }
      }
    }
  }

  lemma BelowWay(way: seq<nat>, n: nat, i: nat)
    requires Chain(way, n) && way[|way| - 1] < i
    ensures i !in way
  {
    WayGrows(way, n, |way| - 1);
  }

  /** Under shortest-job-first, order is kept exactly if the way turns left only where the left child is no larger. */
  lemma SjfOrderAfterDown(arr: seq<int>, before: seq<int>, n: nat, procs: seq<Sched>, way: seq<nat>)
    requires 0 < n <= |before| && |way| > 0 && Fell(arr, before, n, procs, 0, 0, way)
    requires OrderedBelow(Keys(before, procs, 0), n)
    ensures
      var was := Keys(before, procs, 0);
      |arr| == |before|
      && (Ordered(Keys(arr, procs, 0), n) <==>
          forall j :: 0 < j < |way| && way[j] % 2 == 1 && way[j] + 1 < n ==> was[way[j]] <= was[way[j] + 1])
  {
    HeapOrderAfterDown(arr, before, n, procs, 0, way);
    assert FellAlong(arr, before, n, procs, 0, 0, way);
    SjfWay(before, n, procs, way);
    SjfEnds(arr, before, n, procs, way);
  }

  /** What the burst estimates on the way are: below the moved one, which is at most that of a left child passed by. */
  ghost predicate Passes(was: seq<int>, n: nat, way: seq<nat>, j: nat)
    requires 0 < n <= |was| && j < |way|
  {
    0 < way[j] < n && was[way[j]] < was[0] && (way[j] % 2 == 0 ==> was[0] <= was[way[j] - 1])
  }

  lemma SjfWay(before: seq<int>, n: nat, procs: seq<Sched>, way: seq<nat>)
    requires 0 < n <= |before| && Way(before, n, procs, 0, way) && way[0] == 0
    ensures forall j :: 0 < j < |way| ==> Passes(Keys(before, procs, 0), n, way, j)
  {
    forall j | 0 < j < |way| ensures Passes(Keys(before, procs, 0), n, way, j) {
      WayParent(before, n, procs, 0, way, j - 1);
      assert Link(way, n, j - 1) && DownAt(before, n, procs, 0, way, j - 1);
    }
  }

  lemma SjfEnds(arr: seq<int>, before: seq<int>, n: nat, procs: seq<Sched>, way: seq<nat>)
    requires 0 < n <= |before| && FellAlong(arr, before, n, procs, 0, 0, way)
    requires forall j :: 0 < j < |way| ==> Passes(Keys(before, procs, 0), n, way, j)
    ensures
      var was := Keys(before, procs, 0);
      && Settles(was, n, way)
      && (NoSmaller(was, n, way) <==>
          forall j :: 0 < j < |way| && way[j] % 2 == 1 && way[j] + 1 < n ==> was[way[j]] <= was[way[j] + 1])
  {
    var was := Keys(before, procs, 0);
    assert |way| > 1 ==> Passes(was, n, way, |way| - 1);
    if forall j :: 0 < j < |way| && way[j] % 2 == 1 && way[j] + 1 < n ==> was[way[j]] <= was[way[j] + 1] {
      forall j | 0 < j < |way| && way[j] > 0 && way[j] < n && Sibling(way[j]) < n
        ensures was[way[j]] <= was[Sibling(way[j])]
      {
        assert Passes(was, n, way, j);
      }
    } else {
      var j :| 0 < j < |way| && way[j] % 2 == 1 && way[j] + 1 < n && was[way[j]] > was[way[j] + 1];
      assert Passes(was, n, way, j) && Sibling(way[j]) == way[j] + 1;
    }
  }

  /** A fifth entry can break the order: slot 4 is compared with slot 2, but its parent is slot 1. */
  lemma HeapOrderLost()
    ensures
      var before := [0, 5, 1, 5, 2];
      Ordered(before, 4) && Sifted(before, before, 4) && !Ordered(before, 5)
  {
    var before := [0, 5, 1, 5, 2];
    assert !Edge(before, 4);
  }

  /** Three processes with these burst estimates and run times. */
  function Three(bursts: seq<int>, times: seq<int>): seq<Sched>
    requires |bursts| == |times| == 3
  {
    [Sched(RUNNABLE, bursts[0], 0, 0, 0, times[0]), Sched(RUNNABLE, bursts[1], 0, 0, 0, times[1]),
     Sched(RUNNABLE, bursts[2], 0, 0, 0, times[2])]
  }

  /**
   heapify_down can break the order under shortest-job-first: an entry of 3 above 2 and 1
   goes left, and leaves 2 above 1. The next get does not return the shortest job.
   */
  lemma ShortestPassedOver()
    ensures
      var procs := Three([3, 2, 1], [0, 0, 0]);
      && OrderedBelow(Keys([0, 1, 2], procs, 0), 3) && Fell([1, 0, 2], [0, 1, 2], 3, procs, 0, 0, [0, 1])
      && !Ordered(Keys([1, 0, 2], procs, 0), 3)
  {
    var procs := Three([3, 2, 1], [0, 0, 0]);
    var a, b, way: seq<nat> := [0, 1, 2], [1, 0, 2], [0, 1];
    assert DownAt(a, 3, procs, 0, way, 0) && MovesAt(b, a, way, 0);
    assert forall c :: 0 <= c < 3 && c !in way ==> c == 2;
    assert !Edge(Keys(b, procs, 0), 2);
  }

  /** Under the fair policy the right child is compared by its burst: one that has run less stays below. */
  lemma LeastRunPassedOver()
    ensures
      var procs := Three([0, 0, 5], [3, 4, 1]);
      && Fell([0, 1, 2], [0, 1, 2], 3, procs, 1, 0, [0]) && !Ordered(Keys([0, 1, 2], procs, 1), 3)
  {
    var procs := Three([0, 0, 5], [3, 4, 1]);
    assert !Edge(Keys([0, 1, 2], procs, 1), 2);
  }

  ghost predicate SinkAt(steps: seq<seq<int>>, ways: seq<seq<nat>>, n: nat, procs: seq<Sched>, algo: int, j: nat)
    requires j + 1 < |steps| && j < |ways| && j < n / 2
  {
    Fell(steps[j + 1], steps[j], n, procs, algo, n / 2 - 1 - j, ways[j])
  }

  /** The arrays before and after each of the first k sift-downs of rearrange_heap, from slot n/2 - 1 down. */
  ghost predicate Sinks(steps: seq<seq<int>>, ways: seq<seq<nat>>, n: nat, procs: seq<Sched>, algo: int, k: nat) {
    && k <= n / 2 && |steps| == k + 1 && |ways| == k && forall j :: 0 <= j < k ==>
      SinkAt(steps, ways, n, procs, algo, j)
  }

  /** rearrange_heap: a sift-down at every slot that has a child, the last first. */
  method RearrangeHeap(arr: array<int>, n: nat, algo: int, procs: seq<Sched>)
    returns (ghost steps: seq<seq<int>>, ghost ways: seq<seq<nat>>)
    requires Entries(arr, n, procs)
    modifies arr
    ensures Rearranged(arr[..], old(arr[..]), n)
    ensures Sinks(steps, ways, n, procs, algo, n / 2) && steps[0] == old(arr[..]) && steps[n / 2] == arr[..]
  {
    ghost var before := arr[..];
    steps, ways := [arr[..]], [];
    var i := n / 2 - 1;
    while i >= 0
      invariant -1 <= i < n && Rearranged(arr[..], before, n) && Entries(arr, n, procs)
      invariant Sinks(steps, ways, n, procs, algo, n / 2 - 1 - i)
      invariant steps[0] == before && steps[n / 2 - 1 - i] == arr[..]
    {
      ghost var middle, way := arr[..], [];
      way := HeapifyDown(arr, n, i, algo, procs);
      RearrangedTrans(arr[..], middle, before, n);
      RearrangedEntries(arr, middle, n, procs);
      SinksOn(steps, ways, n, procs, algo, n / 2 - 1 - i, arr[..], way);
      steps, ways := steps + [arr[..]], ways + [way];
      i := i - 1;
    }
  }

  lemma SinksOn(steps: seq<seq<int>>, ways: seq<seq<nat>>, n: nat, procs: seq<Sched>, algo: int, k: nat, now: seq<int>,
                way: seq<nat>)
    requires Sinks(steps, ways, n, procs, algo, k) && k < n / 2
    requires Fell(now, steps[k], n, procs, algo, n / 2 - 1 - k, way)
    ensures Sinks(steps + [now], ways + [way], n, procs, algo, k + 1)
  {
    forall j | 0 <= j < k + 1 ensures SinkAt(steps + [now], ways + [way], n, procs, algo, j) {
      if j < k { assert SinkAt(steps, ways, n, procs, algo, j); }
    }
  }

  lemma RearrangedTrans(now: seq<int>, middle: seq<int>, before: seq<int>, n: nat)
    requires Rearranged(now, middle, n) && Rearranged(middle, before, n)
    ensures Rearranged(now, before, n)
  {
  }

  lemma RearrangedEntries(arr: array<int>, before: seq<int>, n: nat, procs: seq<Sched>)
    requires Rearranged(arr[..], before, n) && forall i :: 0 <= i < n ==> 0 <= before[i] < |procs|
    ensures Entries(arr, n, procs)
  {
    forall i | 0 <= i < n ensures 0 <= arr[i] < |procs| {
      assert arr[i] in multiset(arr[..n]);
      assert arr[i] in before[..n];
    }
  }

  /** ticks - t in unsigned 32-bit arithmetic, divided, and stored in an int. */
  function Timeslice(ticks: nat, t: int, others: nat): int {
    var d := ((ticks - t) % 0x1_0000_0000) / (others + 1);
    var slice := if d < 0x8000_0000 then d else d - 0x1_0000_0000;
    if slice == 0 then 1 else slice
  }

  /** The quantifier has one instance; it keeps the division out of the methods. */
  ghost predicate IsSlice(slice: int, ticks: nat, t: int, others: nat) {
    forall k: nat :: k == others ==> slice == Timeslice(ticks, t, k)
  }

  lemma ShareIs(d: nat, m: nat)
    requires m > 0
    ensures d / m * m <= d < d / m * m + m
  {
    assert d == d / m * m + d % m;
  }

  lemma Wait(ticks: nat, t: int)
    requires t <= ticks < t + 0x8000_0000
    ensures (ticks - t) % 0x1_0000_0000 == ticks - t
  {
  }

  /** A time slice is an equal share of the time since put, and at least one tick. */
  lemma TimesliceIs(ticks: nat, t: int, others: nat, slice: int)
    requires t <= ticks < t + 0x8000_0000 && IsSlice(slice, ticks, t, others)
    ensures slice >= 1 && ticks - t < slice * (others + 1) + (others + 1)
    ensures slice > 1 ==> slice * (others + 1) <= ticks - t
  {
    assert slice == Timeslice(ticks, t, others);
    Wait(ticks, t);
    ShareIs(ticks - t, others + 1);
    Shared(ticks - t, others + 1, slice);
  }

  lemma Shared(d: nat, m: nat, slice: int)
    requires m > 0 && d < 0x8000_0000 && d / m * m <= d < d / m * m + m
    requires slice == if d / m == 0 then 1 else d / m
    ensures slice >= 1 && d < slice * m + m && (slice > 1 ==> slice * m <= d)
  {
  }

  /** The array of get before its sift-down. */
  ghost function LastToRoot(a: seq<int>, n: nat): seq<int>
    requires 0 < n <= |a|
  {
    a[0 := a[n - 1]][n - 1 := NULL]
  }

  /** proc_sched, with the process table. */
  class ReadyQueue {
    const heap: array<int>
    var heapSize: nat
    var weight: int          // a
    var algorithm: int
    var isPreemptive: int
    var procs: seq<Sched>

    ghost predicate Valid()
      reads this, heap
    {
      heap.Length == NPROC && |procs| == NPROC && heapSize <= NPROC && Entries(heap, heapSize, procs)
    }

    ghost function Contents(): multiset<int>
      requires heapSize <= heap.Length
      reads this, heap
    {
      multiset(heap[..heapSize])
    }

    constructor ()
      ensures Valid() && Contents() == multiset{} && fresh(heap) && weight == 50 && Cooperative()
      ensures forall p :: 0 <= p < NPROC ==> procs[p] == Sched(UNUSED, 0, 0, 0, 0, 0)
    {
      heap := new int[NPROC](_ => NULL);
      heapSize, weight, algorithm, isPreemptive := 0, 50, 0, 0;
      procs := seq(NPROC, _ => Sched(UNUSED, 0, 0, 0, 0, 0));
    }

    /** The heap part of put. */
    method Insert(p: nat) returns (ghost way: seq<nat>)
      requires Valid() && p < NPROC && heapSize < NPROC
      modifies this`heapSize, heap
      ensures Valid() && heapSize == old(heapSize) + 1 && Contents() == old(Contents()) + multiset{p}
      ensures Rose(heap[..], old(heap[..])[old(heapSize) := p], heapSize, procs, algorithm, way)
      ensures heapSize > 1 ==> Arrived(heap[..], old(heap[..])[old(heapSize) := p], heapSize, procs, algorithm)
    {
      heap[heapSize] := p;
      assert heap[..heapSize + 1] == old(heap[..heapSize]) + [p];
      heapSize := heapSize + 1;
      ghost var before := heap[..];
      assert before == old(heap[..])[old(heapSize) := p];
      way := HeapifyUp(heap, heapSize, algorithm, procs);
      RearrangedEntries(heap, before, heapSize, procs);
    }

    /** The process part of put. The guard of the averaging looks at process 0, not at p. */
    method Refresh(p: nat, ticks: nat)
      requires Valid() && p < NPROC
      modifies this`procs
      ensures Valid() && (old(Cooperative()) ==> Cooperative())
      ensures
        var x := old(procs)[p];
        procs == old(procs)[p := Sched(
          RUNNABLE, if old(procs)[0].state != RUNNING then Estimate(weight, x.burst, x.burstApprox) else x.burstApprox,
          x.burst, x.timeslice, ticks, if x.state == RUNNING then x.exeTime + x.burst else 0)]
    {
      var x := procs[p];
      if procs[0].state != RUNNING {
        x := x.(burstApprox := Estimate(weight, x.burst, x.burstApprox));
      }
      if x.state == RUNNING {
        x := x.(exeTime := x.exeTime + x.burst);
      } else {
        x := x.(exeTime := 0);
      }
      x := x.(putTimestamp := ticks);
      x := x.(state := RUNNABLE);
      procs := procs[p := x];
    }

    /** put, when an entry still fits; nothing in put checks that. */
    method Put(p: nat, ticks: nat) returns (ghost way: seq<nat>)
      requires Valid() && p < NPROC && heapSize < NPROC
      modifies this`heapSize, this`procs, heap
      ensures Valid() && heapSize == old(heapSize) + 1 && Contents() == old(Contents()) + multiset{p}
      ensures
        var x := old(procs)[p];
        procs == old(procs)[p := Sched(
          RUNNABLE, if old(procs)[0].state != RUNNING then Estimate(weight, x.burst, x.burstApprox) else x.burstApprox,
          x.burst, x.timeslice, ticks, if x.state == RUNNING then x.exeTime + x.burst else 0)]
      ensures Rose(heap[..], old(heap[..])[old(heapSize) := p], heapSize, procs, algorithm, way)
      ensures heapSize > 1 ==> Arrived(heap[..], old(heap[..])[old(heapSize) := p], heapSize, procs, algorithm)
      ensures old(Cooperative()) ==> Cooperative()
    {
      Refresh(p, ticks);
      assert heap[..] == old(heap[..]);
      way := Insert(p);
    }

    /** The root leaves the heap and the last entry takes its place. */
    method TakeRoot() returns (ret: nat)
      requires Valid() && heapSize > 0
      modifies this`heapSize, heap
      ensures Valid() && ret < NPROC && ret == old(heap[0]) && heapSize == old(heapSize) - 1
      ensures heap[..] == LastToRoot(old(heap[..]), old(heapSize))
      ensures Contents() == old(Contents()) - multiset{ret}
    {
      ret := heap[0];
      heap[0] := heap[heapSize - 1];
      heap[heapSize - 1] := NULL;
      heapSize := heapSize - 1;
      RootRemoved(old(heap[..]), heap[..], heapSize);
    }

    /** The heap part of get. */
    method RemoveRoot() returns (ret: nat, ghost way: seq<nat>)
      requires Valid() && heapSize > 0
      modifies this`heapSize, heap
      ensures Valid() && ret < NPROC && ret == old(heap[0])
      ensures heapSize == old(heapSize) - 1 && Contents() == old(Contents()) - multiset{ret}
      ensures Fell(heap[..], LastToRoot(old(heap[..]), old(heapSize)), heapSize, procs, algorithm, 0, way)
    {
      ret := TakeRoot();
      ghost var before := heap[..];
      way := HeapifyDown(heap, heapSize, 0, algorithm, procs);
      RearrangedEntries(heap, before, heapSize, procs);
    }

    /** get: the entry at the root, NULL from an empty heap. The last entry goes to the root, and its way from there. */
    method Get(ticks: nat) returns (ret: int, ghost way: seq<nat>)
      requires Valid()
      modifies this`heapSize, this`procs, heap
      ensures Valid()
      ensures old(heapSize) == 0 ==>
        ret == NULL && heapSize == 0 && procs == old(procs) && heap[..] == old(heap[..])
      ensures old(heapSize) > 0 ==>
        && 0 <= ret < NPROC && ret == old(heap[0])
        && heapSize == old(heapSize) - 1 && Contents() == old(Contents()) - multiset{ret}
        && procs == old(procs)[ret := old(procs)[ret].(burst := 0, timeslice := procs[ret].timeslice)]
        && (if algorithm == 1 then IsSlice(procs[ret].timeslice, ticks, old(procs)[ret].putTimestamp, heapSize)
            else procs[ret].timeslice == old(procs)[ret].timeslice)
        && Fell(heap[..], LastToRoot(old(heap[..]), old(heapSize)), heapSize, old(procs), algorithm, 0, way)
      ensures old(Cooperative()) ==> Cooperative()
    {
      if heapSize == 0 {
        return NULL, [];
      }
      ret, way := RemoveRoot();
      var x := procs[ret].(burst := 0);
      if algorithm == 1 {
        x := x.(timeslice := Timeslice(ticks, x.putTimestamp, heapSize));
      }
      procs := procs[ret := x];
    }

    /** timer_routine: the result says whether the process must yield. */
    method TimerRoutine(p: nat) returns (gives: bool)
      requires Valid() && p < NPROC
      modifies this`procs
      ensures Valid() && procs == old(procs)[p := old(procs)[p].(burst := old(procs)[p].burst + 1)]
      ensures old(Cooperative()) ==> !gives && Cooperative()
      ensures gives <==>
        (procs[p].timeslice != 0 && procs[p].burst == procs[p].timeslice) || (algorithm == 0 && isPreemptive == 1)
    {
      procs := procs[p := procs[p].(burst := procs[p].burst + 1)];
      gives := (procs[p].timeslice != 0 && procs[p].burst == procs[p].timeslice) ||
        (algorithm == 0 && isPreemptive == 1);
    }

    /** Shortest-job-first without preemption, and no time slice left over from the other policy. */
    ghost predicate Cooperative()
      reads this
    {
      algorithm == 0 && isPreemptive != 1 && forall p :: 0 <= p < |procs| ==> procs[p].timeslice == 0
    }

    /** change_sched: a is checked only for the policy that uses it. */
    method ChangeSched(algo: int, isPreemptive: int, a: int)
      returns (r: int, ghost steps: seq<seq<int>>, ghost ways: seq<seq<nat>>)
      requires Valid()
      modifies this`algorithm, this`isPreemptive, this`weight, heap
      ensures Valid() && Contents() == old(Contents())
      ensures r == (if algo < 0 || algo > 1 || isPreemptive < 0 then -2
                    else if algo == 0 && (a < 0 || a > 100) then -3 else 0)
      ensures r != 0 ==>
        algorithm == old(algorithm) && this.isPreemptive == old(this.isPreemptive) && weight == old(weight)
        && heap[..] == old(heap[..])
      ensures r == 0 ==> algorithm == algo && this.isPreemptive == isPreemptive && weight == a
      ensures r == 0 ==>
        && Sinks(steps, ways, heapSize, procs, algo, heapSize / 2)
        && steps[0] == old(heap[..]) && steps[heapSize / 2] == heap[..]
    {
      if algo < 0 || algo > 1 || isPreemptive < 0 {
        return -2, [], [];
      }
      if algo == 0 && (a < 0 || a > 100) {
        return -3, [], [];
      }
      algorithm := algo;
      this.isPreemptive := isPreemptive;
      weight := a;
      ghost var before := heap[..];
      steps, ways := RearrangeHeap(heap, heapSize, algo, procs);
      RearrangedEntries(heap, before, heapSize, procs);
      r := 0;
    }
  }

  lemma RootRemoved(before: seq<int>, after: seq<int>, n: nat)
    requires n < |before| == |after| && after == before[0 := before[n]][n := NULL]
    ensures multiset(after[..n]) == multiset(before[..n + 1]) - multiset{before[0]}
  {
    if n == 0 {
      assert before[..1] == [before[0]];
    } else {
      assert before[..n + 1] == [before[0]] + before[1..n] + [before[n]];
      assert after[..n] == [before[n]] + before[1..n];
    }
  }

  /**
   yield puts a RUNNING process and scheduler() puts it once more: by then it is RUNNABLE,
   and the run time that the fair policy sorts by is forgotten.
   */
  method RunTimeForgotten(q: ReadyQueue, p: nat, t1: nat, t2: nat) returns (between: int)
    requires q.Valid() && p < NPROC && q.heapSize + 2 <= NPROC && q.procs[p].state == RUNNING
    modifies q, q.heap
    ensures q.Valid() && between == old(q.procs)[p].exeTime + old(q.procs)[p].burst && q.procs[p].exeTime == 0
  {
    ghost var way := q.Put(p, t1);
    between := q.procs[p].exeTime;
    way := q.Put(p, t2);
  }

  /** A burst of 100 at weight 50 gives an estimate of 50, but none while process 0 runs. */
  method AverageSkipped() returns (q: ReadyQueue, r: ReadyQueue)
    ensures q.Valid() && r.Valid() && q.procs[1].burstApprox == 50 && r.procs[1].burstApprox == 0
  {
    q := new ReadyQueue();
    q.procs := q.procs[1 := q.procs[1].(burst := 100, state := RUNNING)];
    ghost var way := q.Put(1, 0);
    r := new ReadyQueue();
    r.procs := r.procs[1 := r.procs[1].(burst := 100, state := SLEEPING)][0 := r.procs[0].(state := RUNNING)];
    way := r.Put(1, 0);
  }

  // ---- the estimates over any sequence of calls ----

  /**
   What happens to the queue and the processes; Becomes is any change of state outside put,
   Reset allocproc or freeproc.
   */
  datatype Call =
    | CallPut(p: nat, ticks: nat)
    | CallGet(ticks: nat)
    | CallTimer(p: nat)
    | CallChange(algo: int, isPreemptive: int, a: int)
    | Becomes(p: nat, state: PState)
    | Reset(p: nat, state: PState)

  function MaxBurst(procs: seq<Sched>): (b: int)
    ensures b >= 0 && forall p :: 0 <= p < |procs| ==> procs[p].burst <= b
  {
    if procs == [] then 0 else Max(MaxBurst(procs[..|procs| - 1]), procs[|procs| - 1].burst)
  }

  /** The largest burst in a sequence of process tables. */
  function LargestSeen(trace: seq<seq<Sched>>): (b: int)
    ensures b >= 0
  {
    if trace == [] then 0 else Max(LargestSeen(trace[..|trace| - 1]), MaxBurst(trace[|trace| - 1]))
  }

  ghost predicate EstimatesIn(procs: seq<Sched>, b: int) {
    forall p :: 0 <= p < |procs| ==> 0 <= procs[p].burstApprox <= b && 0 <= procs[p].burst
  }

  /** Every estimate of a table is at most the largest burst up to it. */
  ghost predicate Tamed(trace: seq<seq<Sched>>) {
    forall i :: 0 <= i < |trace| ==> EstimatesIn(trace[i], LargestSeen(trace[..i + 1]))
  }

  lemma TamedNext(trace: seq<seq<Sched>>, procs: seq<Sched>)
    requires Tamed(trace) && |trace| > 0
    requires EstimatesIn(procs, LargestSeen(trace))
    ensures Tamed(trace + [procs])
  {
    var next := trace + [procs];
    forall i | 0 <= i < |next| ensures EstimatesIn(next[i], LargestSeen(next[..i + 1])) {
      if i < |trace| {
        assert next[..i + 1] == trace[..i + 1];
      } else {
        assert next[..i + 1] == next && next[..i] == trace;
      }
    }
  }

  lemma Latest(trace: seq<seq<Sched>>)
    requires Tamed(trace) && |trace| > 0
    ensures
      var procs, b := trace[|trace| - 1], LargestSeen(trace);
      EstimatesIn(procs, b) && forall p :: 0 <= p < |procs| ==> procs[p].burst <= b
  {
    assert trace[..|trace| - 1 + 1] == trace;
  }

  method ServePut(q: ReadyQueue, p: nat, ticks: nat, ghost b: int)
    requires q.Valid() && 0 <= q.weight <= 100 && EstimatesIn(q.procs, b) && p < NPROC && q.heapSize < NPROC
    requires q.procs[p].burst <= b
    modifies q, q.heap
    ensures q.Valid() && q.weight == old(q.weight) && EstimatesIn(q.procs, b)
  {
    EstimateIs(q.weight, q.procs[p].burst, q.procs[p].burstApprox);
    ghost var way := q.Put(p, ticks);
  }

  method ServeGet(q: ReadyQueue, ticks: nat, ghost b: int)
    requires q.Valid() && EstimatesIn(q.procs, b)
    modifies q, q.heap
    ensures q.Valid() && q.weight == old(q.weight) && EstimatesIn(q.procs, b)
  {
    var r;
    ghost var way;
    ghost var was := q.procs;
    r, way := q.Get(ticks);
    if r != NULL { GetKeepsEstimates(was, q.procs, r, b); }
  }

  lemma GetKeepsEstimates(was: seq<Sched>, procs: seq<Sched>, r: int, b: int)
    requires 0 <= r < |procs| == |was| && EstimatesIn(was, b)
    requires procs == was[r := was[r].(burst := 0, timeslice := procs[r].timeslice)]
    ensures EstimatesIn(procs, b)
  {
  }

  method ServeChange(q: ReadyQueue, algo: int, isPreemptive: int, a: int)
    requires q.Valid() && 0 <= q.weight <= 100 && 0 <= a <= 100
    modifies q, q.heap
    ensures q.Valid() && 0 <= q.weight <= 100 && q.procs == old(q.procs)
  {
    var r;
    ghost var steps, ways;
    r, steps, ways := q.ChangeSched(algo, isPreemptive, a);
  }

  /** One call; a put into a full heap, which the caller must not make, is left out. */
  method Serve(q: ReadyQueue, call: Call, ghost b: int)
    requires q.Valid() && 0 <= q.weight <= 100 && EstimatesIn(q.procs, b)
    requires forall p :: 0 <= p < |q.procs| ==> q.procs[p].burst <= b
    requires call.CallChange? ==> 0 <= call.a <= 100
    modifies q, q.heap
    ensures q.Valid() && 0 <= q.weight <= 100 && EstimatesIn(q.procs, b)
  {
    match call
    case CallPut(p, ticks) => if p < NPROC && q.heapSize < NPROC { ServePut(q, p, ticks, b); }
    case CallGet(ticks) => ServeGet(q, ticks, b);
    case CallTimer(p) => if p < NPROC { var gives := q.TimerRoutine(p); }
    case CallChange(algo, isPreemptive, a) => ServeChange(q, algo, isPreemptive, a);
    case Becomes(p, state) => if p < NPROC { q.procs := q.procs[p := q.procs[p].(state := state)]; }
    case Reset(p, state) => if p < NPROC { q.procs := q.procs[p := Sched(state, 0, 0, 0, 0, 0)]; }
  }

  /**
   From boot on, after any sequence of calls with weights in 0..100, every estimate of
   every process is between 0 and the largest burst that any process has had so far.
   trace is the process table at the start and after each call.
   */
  method EstimatesTamed(calls: seq<Call>) returns (q: ReadyQueue, ghost trace: seq<seq<Sched>>)
    requires forall i :: 0 <= i < |calls| && calls[i].CallChange? ==> 0 <= calls[i].a <= 100
    ensures q.Valid() && |trace| == |calls| + 1 && trace[|calls|] == q.procs && Tamed(trace)
  {
    q := new ReadyQueue();
    trace := [q.procs];
    assert trace[..1] == trace && EstimatesIn(q.procs, LargestSeen(trace));
    for i := 0 to |calls|
      invariant q.Valid() && fresh(q) && fresh(q.heap) && 0 <= q.weight <= 100
      invariant |trace| == i + 1 && trace[i] == q.procs && Tamed(trace)
    {
      Latest(trace);
      Serve(q, calls[i], LargestSeen(trace));
      TamedNext(trace, q.procs);
      trace := trace + [q.procs];
    }
  }
}
