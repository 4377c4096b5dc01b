/** Runs of a state machine given by a partial step function, and runs in which every step is
    one that a given condition allows. */
module Traces {
  import opened Text

  /** The state after the actions; `None` when one of them is not enabled. */
  function Run<S, A>(step: (S, A) -> Option<S>, s: S, actions: seq<A>): Option<S>
    decreases |actions|
  {
    if actions == [] then Some(s)
    else match step(s, actions[0])
         case None => None
         case Some(next) => Run(step, next, actions[1..])
  }

  lemma {:induction false} RunAppend<S, A>(step: (S, A) -> Option<S>, s: S, first: seq<A>, second: seq<A>)
    requires Run(step, s, first).Some?
    ensures Run(step, s, first + second) == Run(step, Run(step, s, first).value, second)
    decreases |first|
  {
    if first == [] {
      assert first + second == second;
    } else {
      RunAppend(step, step(s, first[0]).value, first[1..], second);
      assert (first + second)[1..] == first[1..] + second;
    }
  }

  lemma RunCons<S, A>(step: (S, A) -> Option<S>, s: S, a: A, rest: seq<A>)
    requires step(s, a).Some?
    ensures Run(step, s, [a] + rest) == Run(step, step(s, a).value, rest)
  {
    assert ([a] + rest)[1..] == rest;
  }

  lemma RunNext<S, A>(step: (S, A) -> Option<S>, s: S, first: seq<A>, a: A)
    requires Run(step, s, first).Some?
    ensures Run(step, s, first + [a]) == step(Run(step, s, first).value, a)
  {
    RunAppend(step, s, first, [a]);
    assert [a][1..] == [];
  }

  /** The last step of a run. */
  lemma {:induction false} RunLast<S, A>(step: (S, A) -> Option<S>, s: S, actions: seq<A>)
    requires actions != [] && Run(step, s, actions).Some?
    ensures Run(step, s, actions[..|actions| - 1]).Some?
    ensures Run(step, s, actions)
      == step(Run(step, s, actions[..|actions| - 1]).value, actions[|actions| - 1])
    decreases |actions|
  {
    if |actions| > 1 {
      RunLast(step, step(s, actions[0]).value, actions[1..]);
      assert actions[..|actions| - 1][1..] == actions[1..][..|actions| - 2];
    }
  }

  /** A run from `s` to `t` whose every step is allowed. */
  ghost predicate Executed<S, A>(step: (S, A) -> Option<S>, allows: (S, A) -> bool, s: S, trace: seq<A>, t: S)
    decreases |trace|
  {
    if trace == [] then t == s
    else
      && allows(s, trace[0])
      && step(s, trace[0]).Some?
      && Executed(step, allows, step(s, trace[0]).value, trace[1..], t)
  }

  lemma {:induction false} ExecutedRuns<S, A>(step: (S, A) -> Option<S>, allows: (S, A) -> bool, s: S, trace: seq<A>,
                                              t: S)
    requires Executed(step, allows, s, trace, t)
    ensures Run(step, s, trace) == Some(t)
    decreases |trace|
  {
    if trace != [] {
      ExecutedRuns(step, allows, step(s, trace[0]).value, trace[1..], t);
    }
  }

  /** Every step of such a run is allowed in the state that it is taken in. */
  lemma {:induction false} ExecutedAllows<S, A>(step: (S, A) -> Option<S>, allows: (S, A) -> bool, s: S, trace: seq<A>,
                                                t: S, i: nat)
    requires Executed(step, allows, s, trace, t) && i < |trace|
    ensures Run(step, s, trace[..i]).Some? && allows(Run(step, s, trace[..i]).value, trace[i])
    decreases |trace|
  {
    if i > 0 {
      ExecutedAllows(step, allows, step(s, trace[0]).value, trace[1..], t, i - 1);
      assert trace[..i][1..] == trace[1..][..i - 1];
    }
  }

  lemma ExecutedOne<S, A>(step: (S, A) -> Option<S>, allows: (S, A) -> bool, s: S, a: A)
    requires allows(s, a) && step(s, a).Some?
    ensures Executed(step, allows, s, [a], step(s, a).value)
  {
    assert [a][1..] == [];
  }

  lemma {:induction false} Then<S, A>(step: (S, A) -> Option<S>, allows: (S, A) -> bool, s: S, first: seq<A>, mid: S,
                                      second: seq<A>, t: S)
    requires Executed(step, allows, s, first, mid) && Executed(step, allows, mid, second, t)
    ensures Executed(step, allows, s, first + second, t)
    decreases |first|
  {
    if first == [] {
      assert first + second == second;
    } else {
      Then(step, allows, step(s, first[0]).value, first[1..], mid, second, t);
      assert (first + second)[1..] == first[1..] + second;
    }
  }
}
