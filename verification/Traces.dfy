/** The states that a step function goes through. */
module Traces {
  ghost predicate Linked<S, T>(states: seq<S>, inputs: seq<T>, step: (S, T) -> S, i: nat) {
    i < |inputs| && i + 1 < |states| && states[i + 1] == step(states[i], inputs[i])
  }

  /** `states` are the states before, between and after the first `n` steps. */
  ghost predicate Runs<S, T>(states: seq<S>, inputs: seq<T>, step: (S, T) -> S, n: nat) {
    |states| == n + 1 && n <= |inputs| && forall i: nat :: i < n ==> Linked(states, inputs, step, i)
  }

  lemma RunsOn<S, T>(states: seq<S>, inputs: seq<T>, step: (S, T) -> S, n: nat, next: S)
    requires n < |inputs| && Runs(states, inputs, step, n) && next == step(states[n], inputs[n])
    ensures Runs(states + [next], inputs, step, n + 1)
  {
    var more := states + [next];
    forall i: nat | i < n + 1 ensures Linked(more, inputs, step, i) {
      assert i < n ==> Linked(states, inputs, step, i);
      assert more[i] == states[i] && more[i + 1] == if i < n then states[i + 1] else next;
    }
  }
}
