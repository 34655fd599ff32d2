/** Runs of a state machine given by its step function. */
module Runs {

  function Run<S, E>(step: (S, E) -> S, s: S, es: seq<E>): S
    decreases |es|
  {
    if es == [] then s else Run(step, step(s, es[0]), es[1..])
  }

  /** No event of the run is bad in the state it meets. */
  ghost predicate Never<S, E>(step: (S, E) -> S, bad: (S, E) -> bool, s: S, es: seq<E>)
    decreases |es|
  {
    es == [] || (!bad(s, es[0]) && Never(step, bad, step(s, es[0]), es[1..]))
  }

  lemma {:induction false} Split<S, E>(step: (S, E) -> S, s: S, xs: seq<E>, ys: seq<E>)
    ensures Run(step, s, xs + ys) == Run(step, Run(step, s, xs), ys)
    decreases |xs|
  {
    if xs == [] {
      assert xs + ys == ys;
    } else {
      assert (xs + ys)[1..] == xs[1..] + ys;
      Split(step, step(s, xs[0]), xs[1..], ys);
    }
  }

  lemma {:induction false} NeverSplit<S, E>(step: (S, E) -> S, bad: (S, E) -> bool, s: S, xs: seq<E>, ys: seq<E>)
    ensures Never(step, bad, s, xs + ys) <==> Never(step, bad, s, xs) && Never(step, bad, Run(step, s, xs), ys)
    decreases |xs|
  {
    if xs == [] {
      assert xs + ys == ys;
    } else {
      assert (xs + ys)[1..] == xs[1..] + ys;
      NeverSplit(step, bad, step(s, xs[0]), xs[1..], ys);
    }
  }

  lemma One<S, E>(step: (S, E) -> S, s: S, a: E)
    ensures Run(step, s, [a]) == step(s, a)
  {
    assert [a][1..] == [];
  }

  lemma Two<S, E>(step: (S, E) -> S, s: S, a: E, b: E)
    ensures Run(step, s, [a, b]) == step(step(s, a), b)
  {
    assert [a, b] == [a] + [b];
    Split(step, s, [a], [b]);
    One(step, s, a);
    One(step, step(s, a), b);
  }

  lemma Three<S, E>(step: (S, E) -> S, s: S, a: E, b: E, c: E)
    ensures Run(step, s, [a, b, c]) == step(step(step(s, a), b), c)
  {
    assert [a, b, c] == [a, b] + [c];
    Split(step, s, [a, b], [c]);
    Two(step, s, a, b);
    One(step, step(step(s, a), b), c);
  }

  lemma Four<S, E>(step: (S, E) -> S, s: S, a: E, b: E, c: E, d: E)
    ensures Run(step, s, [a, b, c, d]) == step(step(step(step(s, a), b), c), d)
  {
    assert [a, b, c, d] == [a, b] + [c, d];
    Split(step, s, [a, b], [c, d]);
    Two(step, s, a, b);
    Two(step, step(step(s, a), b), c, d);
  }

  lemma NeverOne<S, E>(step: (S, E) -> S, bad: (S, E) -> bool, s: S, a: E)
    ensures Never(step, bad, s, [a]) <==> !bad(s, a)
  {
    assert [a][1..] == [];
    assert Never(step, bad, step(s, a), []);
  }

  lemma NeverTwo<S, E>(step: (S, E) -> S, bad: (S, E) -> bool, s: S, a: E, b: E)
    ensures Never(step, bad, s, [a, b]) <==> !bad(s, a) && !bad(step(s, a), b)
  {
    assert [a, b] == [a] + [b];
    NeverSplit(step, bad, s, [a], [b]);
    One(step, s, a);
    NeverOne(step, bad, s, a);
    NeverOne(step, bad, step(s, a), b);
  }

  /** What every event that is not bad keeps, every run without a bad event keeps. */
  lemma {:induction false} Keeps<S(!new), E(!new)>(
    step: (S, E) -> S, inv: S -> bool, bad: (S, E) -> bool, s: S, es: seq<E>)
    requires forall t, e :: inv(t) && !bad(t, e) ==> inv(step(t, e))
    requires inv(s) && Never(step, bad, s, es)
    ensures inv(Run(step, s, es))
    decreases |es|
  {
    if es != [] {
      Keeps(step, inv, bad, step(s, es[0]), es[1..]);
    }
  }

  lemma {:induction false} KeepsAlways<S(!new), E(!new)>(step: (S, E) -> S, inv: S -> bool, s: S, es: seq<E>)
    requires forall t, e :: inv(t) ==> inv(step(t, e))
    requires inv(s)
    ensures inv(Run(step, s, es))
    decreases |es|
  {
    if es != [] {
      KeepsAlways(step, inv, step(s, es[0]), es[1..]);
    }
  }
}
