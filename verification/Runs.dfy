/** Runs of any deterministic machine: finitely many steps, and getting stuck. */
module Runs {
  import opened Options

  function Run<S>(step: S -> Option<S>, n: nat, a: S): Option<S> {
    if n == 0 then Some(a)
    else match step(a)
      case None => None
      case Some(b) => Run(step, n - 1, b)
  }

  ghost predicate Reaches<S>(step: S -> Option<S>, a: S, b: S) {
    exists n: nat :: Run(step, n, a) == Some(b)
  }

  /** The machine does n steps without stopping. */
  predicate RunsFor<S>(step: S -> Option<S>, a: S, n: nat) {
    Run(step, n, a).Some?
  }

  /** The machine gets stuck in a state that is not a regular halt. */
  ghost predicate Faults<S(!new)>(step: S -> Option<S>, halted: S -> bool, a: S) {
    exists b :: Reaches(step, a, b) && step(b) == None && !halted(b)
  }

  lemma {:induction false} RunAdd<S>(step: S -> Option<S>, m: nat, n: nat, a: S)
    requires Run(step, m, a).Some?
    ensures Run(step, m + n, a) == Run(step, n, Run(step, m, a).value)
  {
    if m > 0 {
      RunAdd(step, m - 1, n, step(a).value);
    }
  }

  lemma {:induction false} RunLess<S>(step: S -> Option<S>, m: nat, n: nat, a: S)
    requires m <= n && RunsFor(step, a, n)
    ensures RunsFor(step, a, m)
  {
    if m > 0 {
      RunLess(step, m - 1, n - 1, step(a).value);
    }
  }

  lemma {:induction false} Stay<S>(step: S -> Option<S>, a: S)
    ensures Reaches(step, a, a)
  {
    assert Run(step, 0, a) == Some(a);
  }

  lemma {:induction false} OneStep<S>(step: S -> Option<S>, a: S, b: S)
    requires step(a) == Some(b)
    ensures Reaches(step, a, b)
  {
    assert Run(step, 0, b) == Some(b);
    assert Run(step, 1, a) == Some(b);
  }

  lemma {:induction false} Chained<S>(step: S -> Option<S>, a: S, b: S, c: S)
    requires Reaches(step, a, b) && Reaches(step, b, c)
    ensures Reaches(step, a, c)
  {
    var m: nat :| Run(step, m, a) == Some(b);
    var n: nat :| Run(step, n, b) == Some(c);
    RunAdd(step, m, n, a);
    assert Run(step, m + n, a) == Some(c);
  }

  lemma {:induction false} ChainedFault<S(!new)>(step: S -> Option<S>, halted: S -> bool, a: S, b: S)
    requires Reaches(step, a, b) && Faults(step, halted, b)
    ensures Faults(step, halted, a)
  {
    var c :| Reaches(step, b, c) && step(c) == None && !halted(c);
    Chained(step, a, b, c);
  }

  lemma {:induction false} StuckFaults<S(!new)>(step: S -> Option<S>, halted: S -> bool, a: S)
    requires step(a) == None && !halted(a)
    ensures Faults(step, halted, a)
  {
    Stay(step, a);
  }

  lemma {:induction false} ChainedRun<S>(step: S -> Option<S>, a: S, b: S, n: nat)
    requires Reaches(step, a, b) && RunsFor(step, b, n)
    ensures RunsFor(step, a, n)
  {
    var m: nat :| Run(step, m, a) == Some(b);
    RunAdd(step, m, n, a);
    RunLess(step, n, m + n, a);
  }

  lemma {:induction false} StepThenRun<S>(step: S -> Option<S>, a: S, b: S, n: nat)
    requires step(a) == Some(b) && RunsFor(step, b, n)
    ensures RunsFor(step, a, n + 1)
  {
    assert Run(step, n + 1, a) == Run(step, n, b);
  }

  /** A run that ends in a stuck state excludes longer ones, and every other stuck state. */
  lemma {:induction false} StuckIsFinal<S>(step: S -> Option<S>, a: S, b: S, c: S)
    requires Reaches(step, a, b) && step(b) == None
    requires Reaches(step, a, c) && step(c) == None
    ensures b == c
    ensures exists n: nat :: !RunsFor(step, a, n)
  {
    var m: nat :| Run(step, m, a) == Some(b);
    var n: nat :| Run(step, n, a) == Some(c);
    RunAdd(step, m, 1, a);
    RunAdd(step, n, 1, a);
    assert !RunsFor(step, a, m + 1);
    if m < n {
      RunLess(step, m + 1, n, a);
    } else if n < m {
      RunLess(step, n + 1, m, a);
    }
  }
}
