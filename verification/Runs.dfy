/** Runs of a machine that is given by its step function. */
module Runs {
  import opened Wrappers

  /** The state after the run, if every step of it is possible. */
  function RunFrom<S, A>(step: (S, A) -> Option<S>, s: S, run: seq<A>): Option<S>
    decreases run
  {
    if run == [] then Some(s)
    else match step(s, run[0])
         case None => None
         case Some(s') => RunFrom(step, s', run[1..])
  }

  /** A run given state by state. */
  lemma {:induction false} RunOf<S, A>(step: (S, A) -> Option<S>, s: S, run: seq<A>, states: seq<S>)
    requires |states| == |run| + 1 && states[0] == s
    requires forall i :: 0 <= i < |run| ==> step(states[i], run[i]) == Some(states[i + 1])
    ensures RunFrom(step, s, run) == Some(states[|run|])
    decreases run
  {
    if run != [] {
      assert step(states[0], run[0]) == Some(states[1]);
      forall i | 0 <= i < |run[1..]| ensures step(states[1..][i], run[1..][i]) == Some(states[1..][i + 1]) {
        assert step(states[i + 1], run[i + 1]) == Some(states[i + 2]);
      }
      RunOf(step, states[1], run[1..], states[1..]);
    }
  }

  lemma {:induction false} RunConcat<S, A>(step: (S, A) -> Option<S>, s: S, first: seq<A>, second: seq<A>)
    requires RunFrom(step, s, first).Some?
    ensures RunFrom(step, s, first + second) == RunFrom(step, RunFrom(step, s, first).value, second)
    decreases first
  {
    if first == [] {
      assert first + second == second;
    } else {
      assert (first + second)[1..] == first[1..] + second;
      RunConcat(step, step(s, first[0]).value, first[1..], second);
    }
  }
}
