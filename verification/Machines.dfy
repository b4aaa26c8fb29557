/** State machines: executions, and the two ways in which they are reasoned about. */
module Machines {

  /** Each step leads from its state to the next one, the first being an initial one. */
  ghost predicate Runs<S, A>(init: S -> bool, next: (S, A, S) -> bool, states: seq<S>, steps: seq<A>) {
    && |states| == |steps| + 1 && init(states[0])
    && forall i :: 0 <= i < |steps| ==> next(states[i], steps[i], states[i + 1])
  }

  /** What holds initially and is kept by every step holds in every state. */
  lemma {:induction false} Always<S, A>(init: S -> bool, next: (S, A, S) -> bool, inv: S -> bool, states: seq<S>, steps: seq<A>, k: nat)
    requires Runs(init, next, states, steps) && k < |states|
    requires forall s :: init(s) ==> inv(s)
    requires forall s, a, t :: inv(s) && next(s, a, t) ==> inv(t)
    ensures inv(states[k])
  {
    if k > 0 {
      Always(init, next, inv, states, steps, k - 1);
      assert next(states[k - 1], steps[k - 1], states[k - 1 + 1]);
    }
  }

  lemma Extend<S, A>(init: S -> bool, next: (S, A, S) -> bool, states: seq<S>, steps: seq<A>, step: A, t: S) returns (states': seq<S>, steps': seq<A>)
    requires Runs(init, next, states, steps) && next(states[|steps|], step, t)
    ensures Runs(init, next, states', steps') && states' == states + [t] && steps' == steps + [step]
  {
    states', steps' := states + [t], steps + [step];
  }
}
