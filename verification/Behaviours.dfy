/** Runs of a state machine given by its step relation, and the induction principle over them. */
module Behaviours {

  ghost predicate IsRun<S(!new)>(next: (S, S) -> bool, run: seq<S>) {
    |run| > 0 && forall i :: 0 <= i < |run| - 1 ==> next(run[i], run[i + 1])
  }

  /** A property of the first state that every step keeps holds throughout the run. */
  lemma {:induction false} Invariance<S(!new)>(next: (S, S) -> bool, inv: S -> bool, run: seq<S>, k: nat)
    requires IsRun(next, run) && k < |run| && inv(run[0])
    requires forall s, s' :: inv(s) && next(s, s') ==> inv(s')
    ensures inv(run[k])
  {
    if k > 0 {
      Invariance(next, inv, run, k - 1);
      assert next(run[k - 1], run[k - 1 + 1]);
    }
  }
}
