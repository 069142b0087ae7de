/** What several modules share. */
module Common {
  datatype Option<+T> = None | Some(value: T)

  function Min(x: int, y: int): int { if x < y then x else y }

  lemma Fewer<T>(a: set<T>, b: set<T>)
    requires a <= b
    ensures |a| <= |b|
  {
    assert b == a + (b - a);
  }
}

module ProcState {
  /** enum procstate (kernel/proc.h:83) */
  datatype PState = UNUSED | USED | SLEEPING | RUNNABLE | RUNNING | ZOMBIE
}
