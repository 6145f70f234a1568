/** Performing steps one after another. */
module Folding {

  // The state after performing the steps in order.
  function After<S, T>(perform: (S, T) -> S, s: S, steps: seq<T>): S {
    if steps == [] then s else perform(After(perform, s, steps[..|steps| - 1]), steps[|steps| - 1])
  }

  lemma OneMore<S, T>(perform: (S, T) -> S, s: S, steps: seq<T>, step: T)
    ensures After(perform, s, steps + [step]) == perform(After(perform, s, steps), step)
  {
    assert (steps + [step])[..|steps|] == steps;
  }

  lemma One<S, T>(perform: (S, T) -> S, s: S, step: T)
    ensures After(perform, s, [step]) == perform(s, step)
  {
    assert [] + [step] == [step];
    OneMore(perform, s, [], step);
  }

  lemma Two<S, T>(perform: (S, T) -> S, s: S, a: T, b: T)
    ensures After(perform, s, [a, b]) == perform(perform(s, a), b)
  {
    assert [a] + [b] == [a, b];
    One(perform, s, a);
    OneMore(perform, s, [a], b);
  }

  lemma {:induction false} AfterBoth<S, T>(perform: (S, T) -> S, s: S, a: seq<T>, b: seq<T>)
    ensures After(perform, s, a + b) == After(perform, After(perform, s, a), b)
  {
    if b == [] {
      assert a + b == a;
    } else {
      var n := |b| - 1;
      assert (a + b)[..|a + b| - 1] == a + b[..n];
      AfterBoth(perform, s, a, b[..n]);
    }
  }
}
