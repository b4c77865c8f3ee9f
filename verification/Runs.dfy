/**
Runs of a state machine.

A machine is a total function from a state and a step to the next state. A step that is not
enabled leaves the state unchanged, so every list of steps is a run: a property proved of
`Run(next, s, steps)` for all `steps` holds in every interleaving, and, because every prefix of a
run is a run, also in the state a crash after any step leaves behind.
*/
module Runs {

  function Run<S, T>(next: (S, T) -> S, s: S, steps: seq<T>): S
    decreases |steps|
  {
    if steps == [] then s else Run(next, next(s, steps[0]), steps[1..])
  }

  /** An invariant that every step keeps holds after every run. */
  lemma {:induction false} InvariantHolds<S(!new), T(!new)>(next: (S, T) -> S, inv: S -> bool, s: S, steps: seq<T>)
    requires inv(s)
    requires forall s, t :: inv(s) ==> inv(next(s, t))
    ensures inv(Run(next, s, steps))
    decreases |steps|
  {
    if steps != [] {
      InvariantHolds(next, inv, next(s, steps[0]), steps[1..]);
    }
  }

  /** A reflexive and transitive relation that every step keeps relates the ends of every run. */
  lemma {:induction false} RelationHolds<S(!new), T(!new)>(
      next: (S, T) -> S, inv: S -> bool, rel: (S, S) -> bool, s: S, steps: seq<T>)
    requires inv(s)
    requires forall s, t :: inv(s) ==> inv(next(s, t))
    requires forall s :: rel(s, s)
    requires forall a, b, c :: rel(a, b) && rel(b, c) ==> rel(a, c)
    requires forall s, t :: inv(s) ==> rel(s, next(s, t))
    ensures inv(Run(next, s, steps)) && rel(s, Run(next, s, steps))
    decreases |steps|
  {
    if steps != [] {
      var s' := next(s, steps[0]);
      RelationHolds(next, inv, rel, s', steps[1..]);
      assert rel(s, s') && rel(s', Run(next, s', steps[1..]));
    }
  }

  /** Running two lists of steps one after the other is running their concatenation. */
  lemma {:induction false} RunConcat<S, T>(next: (S, T) -> S, s: S, a: seq<T>, b: seq<T>)
    ensures Run(next, s, a + b) == Run(next, Run(next, s, a), b)
    decreases |a|
  {
    if a == [] {
      assert a + b == b;
    } else {
      assert (a + b)[1..] == a[1..] + b;
      RunConcat(next, next(s, a[0]), a[1..], b);
    }
  }

  /** One more step at the end of a run. */
  lemma RunOneMore<S, T>(next: (S, T) -> S, s: S, steps: seq<T>, t: T)
    ensures Run(next, s, steps + [t]) == next(Run(next, s, steps), t)
  {
    RunConcat(next, s, steps, [t]);
    var r := Run(next, s, steps);
    assert Run(next, r, [t]) == Run(next, next(r, t), [t][1..]);
  }
}
