/** Runs of a state machine: `next` is defined exactly where a step is enabled. */
module StepRuns {

  /** The steps can be taken one after the other. */
  ghost predicate Runs<S, T>(next: (S, T) --> S, s: S, steps: seq<T>)
    decreases |steps|
  {
    steps != [] ==> next.requires(s, steps[0]) && Runs(next, next(s, steps[0]), steps[1..])
  }

  ghost function After<S, T>(next: (S, T) --> S, s: S, steps: seq<T>): S
    requires Runs(next, s, steps)
    decreases |steps|
  {
    if steps == [] then s else After(next, next(s, steps[0]), steps[1..])
  }

  ghost predicate Preserves<S(!new), T(!new)>(next: (S, T) --> S, inv: S -> bool) {
    forall s, t | inv(s) && next.requires(s, t) :: inv(next(s, t))
  }

  /** What every step keeps, every run keeps. */
  lemma {:induction false} RunInv<S(!new), T(!new)>(next: (S, T) --> S, inv: S -> bool, s: S, steps: seq<T>)
    requires Preserves(next, inv) && inv(s) && Runs(next, s, steps)
    ensures inv(After(next, s, steps))
    decreases |steps|
  {
    if steps != [] {
      RunInv(next, inv, next(s, steps[0]), steps[1..]);
    }
  }

  /** A step and a run from where it leads are a run. */
  lemma RunCons<S, T>(next: (S, T) --> S, s: S, step: T, rest: seq<T>)
    requires next.requires(s, step) && Runs(next, next(s, step), rest)
    ensures Runs(next, s, [step] + rest)
    ensures After(next, s, [step] + rest) == After(next, next(s, step), rest)
  {
    assert ([step] + rest)[1..] == rest;
  }

  lemma RunOne<S, T>(next: (S, T) --> S, s: S, step: T)
    requires next.requires(s, step)
    ensures Runs(next, s, [step]) && After(next, s, [step]) == next(s, step)
  {
    RunCons(next, s, step, []);
    assert [step] + [] == [step];
  }

  /** A run may be continued. */
  lemma {:induction false} RunSnoc<S, T>(next: (S, T) --> S, s: S, steps: seq<T>, step: T)
    requires Runs(next, s, steps) && next.requires(After(next, s, steps), step)
    ensures Runs(next, s, steps + [step])
    ensures After(next, s, steps + [step]) == next(After(next, s, steps), step)
    decreases |steps|
  {
    if steps == [] {
      assert [step][1..] == [];
      assert Runs(next, next(s, step), []);
    } else {
      assert (steps + [step])[1..] == steps[1..] + [step];
      RunSnoc(next, next(s, steps[0]), steps[1..], step);
    }
  }

  /** A run and a run from where it ends are one run. */
  lemma {:induction false} RunJoin<S, T>(next: (S, T) --> S, s: S, before: seq<T>, steps: seq<T>)
    requires Runs(next, s, before) && Runs(next, After(next, s, before), steps)
    ensures Runs(next, s, before + steps)
    ensures After(next, s, before + steps) == After(next, After(next, s, before), steps)
    decreases |before|
  {
    if before == [] {
      assert [] + steps == steps;
    } else {
      assert (before + steps)[1..] == before[1..] + steps;
      RunJoin(next, next(s, before[0]), before[1..], steps);
    }
  }
}
