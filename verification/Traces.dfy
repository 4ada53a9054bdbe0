/** Invariants along a trace of states joined by steps. */
module Traces {

  ghost predicate IsTrace<S, W>(states: seq<S>, actions: seq<W>, step: (S, W, S) -> bool) {
    |states| == |actions| + 1 && forall k :: 0 <= k < |actions| ==> step(states[k], actions[k], states[k + 1])
  }

  ghost predicate Preserved<S(!new), W(!new)>(step: (S, W, S) -> bool, inv: S -> bool) {
    forall s, w, t :: inv(s) && step(s, w, t) ==> inv(t)
  }

  /** What holds once and is kept by every step holds ever after. */
  lemma {:induction false} Forever<S(!new), W(!new)>(
      states: seq<S>, actions: seq<W>, step: (S, W, S) -> bool, inv: S -> bool, i: nat, j: nat)
    requires IsTrace(states, actions, step) && Preserved(step, inv) && i <= j < |states| && inv(states[i])
    ensures inv(states[j])
    decreases j
  {
    if i < j {
      Forever(states, actions, step, inv, i, j - 1);
      assert step(states[j - 1], actions[j - 1], states[j - 1 + 1]);
    }
  }

  /** A later part of a trace is a trace. */
  lemma Later<S, W>(states: seq<S>, actions: seq<W>, step: (S, W, S) -> bool, n: nat)
    requires IsTrace(states, actions, step) && n <= |actions|
    ensures IsTrace(states[n..], actions[n..], step)
  {
    forall k | 0 <= k < |actions[n..]| ensures step(states[n..][k], actions[n..][k], states[n..][k + 1]) {
      assert step(states[n + k], actions[n + k], states[n + k + 1]);
    }
  }

  /** An earlier part of a trace is a trace. */
  lemma Earlier<S, W>(states: seq<S>, actions: seq<W>, step: (S, W, S) -> bool, n: nat)
    requires IsTrace(states, actions, step) && n <= |actions|
    ensures IsTrace(states[..n + 1], actions[..n], step)
  {
  }

  /** Two traces that meet are one. */
  lemma Join<S, W>(first: seq<S>, before: seq<W>, second: seq<S>, after: seq<W>, step: (S, W, S) -> bool)
    requires IsTrace(first, before, step) && IsTrace(second, after, step) && first[|first| - 1] == second[0]
    ensures IsTrace(first + second[1..], before + after, step)
    ensures (first + second[1..])[|before| + |after|] == second[|after|]
  {
    var states, actions := first + second[1..], before + after;
    forall k | 0 <= k < |actions| ensures step(states[k], actions[k], states[k + 1]) {
      if k < |before| {
        assert step(first[k], before[k], first[k + 1]);
      } else {
        assert step(second[k - |before|], after[k - |before|], second[k - |before| + 1]);
        assert states[k] == second[k - |before|];
      }
    }
  }
}
