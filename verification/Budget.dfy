/**
 Counting what an operation takes from a free list: a set of places to fill, each of
 which costs one unit unless it is filled already, and some extra units.
 */
module Budget {
  ghost predicate Spends<T>(ts: set<T>, n: nat, ts': set<T>, n': nat, ks: set<T>, extra: nat) {
    ts' == ts + ks && n' + extra + |ks - ts| == n
  }

  ghost predicate Lacks<T>(ts: set<T>, n: nat, ks: set<T>, extra: nat) { n < extra + |ks - ts| }

  // The quantifiers have one instance; they keep the cardinalities out of the methods.

  /** From ts on, the places ks have been filled, and they and the extra have cost n - n' units. */
  ghost predicate Spent<T>(ts: set<T>, n: nat, ts': set<T>, n': nat, ks: set<T>, extra: nat) {
    forall m: nat :: m == n ==> Spends(ts, m, ts', n', ks, extra)
  }

  /** n units are too few for the places ks that are not in ts, and the extra. */
  ghost predicate Short<T>(ts: set<T>, n: nat, ks: set<T>, extra: nat) {
    forall m: nat :: m == n ==> Lacks(ts, m, ks, extra)
  }

  lemma Enough<T>(ts: set<T>, n: nat, ts': set<T>, n': nat, ks: set<T>, extra: nat)
    requires Spent(ts, n, ts', n', ks, extra)
    ensures !Short(ts, n, ks, extra)
  {
    assert Spends(ts, n, ts', n', ks, extra);
    assert !Lacks(ts, n, ks, extra);
  }

  /** One extra, taken before the places. */
  lemma ExtraFirst<T>(ts: set<T>, n: nat, ts': set<T>, n': nat, ks: set<T>, ok: bool)
    requires n > 0 && if ok then Spent(ts, n - 1, ts', n', ks, 0) else Short(ts, n - 1, ks, 0)
    ensures if ok then Spent(ts, n, ts', n', ks, 1) else Short(ts, n, ks, 1)
  {
    assert if ok then Spends(ts, n - 1, ts', n', ks, 0) else Lacks(ts, n - 1, ks, 0);
  }

  lemma ExtraMissing<T>(ts: set<T>, ks: set<T>)
    ensures Short(ts, 0, ks, 1)
  {
  }

  lemma SpentThere<T>(ts: set<T>, n: nat, c: T)
    requires c in ts
    ensures Spent(ts, n, ts, n, {c}, 0)
  {
    assert {c} - ts == {};
  }

  lemma SpentAdd<T>(ts: set<T>, n: nat, c: T)
    requires c !in ts && n > 0
    ensures Spent(ts, n, ts + {c}, n - 1, {c}, 0)
  {
    assert {c} - ts == {c};
  }

  lemma SpentNone<T>(ts: set<T>, n: nat)
    ensures Spent(ts, n, ts, n, {}, 0)
  {
    assert {} - ts == {};
  }

  /** What is missing for a and b is what is missing for a, and then for b. */
  lemma MissingSplit<T>(ts: set<T>, a: set<T>, b: set<T>)
    ensures |(a + b) - ts| == |a - ts| + |b - (ts + a)|
  {
    assert (a + b) - ts == (a - ts) + (b - (ts + a));
  }

  lemma MissingMore<T>(ts: set<T>, a: set<T>, b: set<T>)
    requires a <= b
    ensures |a - ts| <= |b - ts|
  {
    MissingSplit(ts, a, b);
    assert a + b == b;
  }

  lemma SpentThen<T>(ts: set<T>, n: nat, ts1: set<T>, n1: nat, ts2: set<T>, n2: nat, a: set<T>, l1: nat, b: set<T>,
                     l2: nat)
    requires Spent(ts, n, ts1, n1, a, l1) && Spent(ts1, n1, ts2, n2, b, l2)
    ensures Spent(ts, n, ts2, n2, a + b, l1 + l2)
  {
    assert Spends(ts, n, ts1, n1, a, l1) && Spends(ts1, n1, ts2, n2, b, l2);
    MissingSplit(ts, a, b);
  }

  lemma ShortThen<T>(ts: set<T>, n: nat, ts1: set<T>, n1: nat, a: set<T>, l1: nat, b: set<T>, l2: nat)
    requires Spent(ts, n, ts1, n1, a, l1) && Short(ts1, n1, b, l2)
    ensures Short(ts, n, a + b, l1 + l2)
  {
    assert Spends(ts, n, ts1, n1, a, l1) && Lacks(ts1, n1, b, l2);
    MissingSplit(ts, a, b);
  }
}
