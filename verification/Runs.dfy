// Finite runs of a step system: every model that speaks of schedules, interleavings or
// sequences of calls quantifies over the `steps` of a `Run`.
module Runs {
  import opened Core

  /** The state after the steps, or None when one of them was not enabled. */
  ghost function Run<S, A>(next: (S, A) -> Option<S>, s: S, steps: seq<A>): Option<S> {
    if steps == [] then Some(s)
    else
      var before := Run(next, s, steps[..|steps| - 1]);
      if before.None? then None else next(before.value, steps[|steps| - 1])
  }

  ghost predicate Reaches<S, A>(next: (S, A) -> Option<S>, s: S, steps: seq<A>, t: S) {
    Run(next, s, steps) == Some(t)
  }

  lemma ReachesSnoc<S, A>(next: (S, A) -> Option<S>, s: S, steps: seq<A>, mid: S, a: A, t: S)
    requires Reaches(next, s, steps, mid) && next(mid, a) == Some(t)
    ensures Reaches(next, s, steps + [a], t)
  {
    assert (steps + [a])[..|steps|] == steps;
  }

  lemma ReachesTwo<S, A>(next: (S, A) -> Option<S>, s: S, steps: seq<A>, m0: S, a: A, m1: S, b: A, t: S)
    requires Reaches(next, s, steps, m0) && next(m0, a) == Some(m1) && next(m1, b) == Some(t)
    ensures Reaches(next, s, steps + [a] + [b], t)
  {
    ReachesSnoc(next, s, steps, m0, a, m1);
    ReachesSnoc(next, s, steps + [a], m1, b, t);
  }

  ghost predicate Keeps<S(!new), A(!new)>(next: (S, A) -> Option<S>, inv: S -> bool) {
    forall s, a :: inv(s) && next(s, a).Some? ==> inv(next(s, a).value)
  }

  /** What holds at the start and is kept by every step holds after every run. */
  lemma {:induction false} RunKeeps<S(!new), A(!new)>(next: (S, A) -> Option<S>, inv: S -> bool,
                                                      s: S, steps: seq<A>, t: S)
    requires inv(s) && Keeps(next, inv) && Reaches(next, s, steps, t)
    ensures inv(t)
  {
    if steps != [] {
      var n := |steps| - 1;
      RunKeeps(next, inv, s, steps[..n], Run(next, s, steps[..n]).value);
    }
  }
}
