/** Runs of a state machine given by its step relation. */
module Runs {
  // states[i + 1] is what events[i] makes of states[i].
  datatype Run<S, E> = Run(states: seq<S>, events: seq<E>)
  {
    function Last(): S
      requires |states| > 0
    {
      states[|states| - 1]
    }
  }

  ghost predicate StepAt<S, E>(next: (S, E, S) -> bool, run: Run<S, E>, i: nat)
    requires i < |run.events| && |run.states| == |run.events| + 1
  {
    next(run.states[i], run.events[i], run.states[i + 1])
  }

  ghost predicate From<S, E>(next: (S, E, S) -> bool, run: Run<S, E>, start: S) {
    && |run.states| == |run.events| + 1
    && run.states[0] == start
    && forall i :: 0 <= i < |run.events| ==> StepAt(next, run, i)
  }

  // A step from the last state makes a longer run.
  lemma Advance<S, E>(next: (S, E, S) -> bool, start: S, run: Run<S, E>, e: E, t: S) returns (longer: Run<S, E>)
    requires From(next, run, start) && next(run.Last(), e, t)
    ensures From(next, longer, start) && longer.Last() == t
    ensures longer.states == run.states + [t] && longer.events == run.events + [e]
  {
    longer := Run(run.states + [t], run.events + [e]);
    forall i | 0 <= i < |longer.events| ensures StepAt(next, longer, i) {
      assert i < |run.events| ==> StepAt(next, run, i);
    }
  }
}
