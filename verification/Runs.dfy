/** Runs of any system: sequences of states, each leading to the next by a step. */
module Runs {

  ghost predicate IsRun<S(!new)>(run: seq<S>, step: (S, S) -> bool) {
    run != [] && forall i :: 0 <= i < |run| - 1 ==> StepAt(run, step, i)
  }

  ghost predicate StepAt<S(!new)>(run: seq<S>, step: (S, S) -> bool, i: int)
    requires 0 <= i < |run| - 1
  {
    step(run[i], run[i + 1])
  }

  ghost predicate Keeps<S(!new)>(step: (S, S) -> bool, inv: S -> bool) {
    forall s, t :: inv(s) && step(s, t) ==> inv(t)
  }

  /** What holds in one state and is kept by every step holds from there on. */
  lemma {:induction false} HoldsAlong<S(!new)>(run: seq<S>, step: (S, S) -> bool, inv: S -> bool, i: nat, j: nat)
    requires IsRun(run, step) && Keeps(step, inv) && i <= j < |run| && inv(run[i])
    ensures inv(run[j])
  {
    if i < j {
      HoldsAlong(run, step, inv, i, j - 1);
      assert StepAt(run, step, j - 1);
    }
  }

  /** The same for what steps keep as long as a condition holds. */
  lemma {:induction false} HoldsWhile<S(!new)>(run: seq<S>, step: (S, S) -> bool, inv: S -> bool, cond: S -> bool, i: nat, j: nat)
    requires IsRun(run, step) && i <= j < |run| && inv(run[i])
    requires forall s, t :: inv(s) && cond(s) && step(s, t) ==> inv(t)
    requires forall m :: i <= m < j ==> cond(run[m])
    ensures inv(run[j])
  {
    if i < j {
      HoldsWhile(run, step, inv, cond, i, j - 1);
      assert StepAt(run, step, j - 1);
    }
  }

  lemma TailIsRun<S(!new)>(run: seq<S>, step: (S, S) -> bool)
    requires IsRun(run, step) && |run| > 1
    ensures step(run[0], run[1]) && IsRun(run[1..], step)
  {
    assert StepAt(run, step, 0);
    forall i | 0 <= i < |run[1..]| - 1 ensures StepAt(run[1..], step, i) {
      assert StepAt(run, step, i + 1);
    }
  }

  lemma LongerRun<S(!new)>(s: S, rest: seq<S>, step: (S, S) -> bool)
    requires IsRun(rest, step) && step(s, rest[0])
    ensures IsRun([s] + rest, step)
  {
    var run := [s] + rest;
    forall i | 0 <= i < |run| - 1 ensures StepAt(run, step, i) {
      if i > 0 { assert StepAt(rest, step, i - 1); }
    }
  }

  lemma JoinedRuns<S(!new)>(a: seq<S>, b: seq<S>, step: (S, S) -> bool)
    requires IsRun(a, step) && IsRun(b, step) && a[|a| - 1] == b[0]
    ensures IsRun(a + b[1..], step) && (a + b[1..])[|a + b[1..]| - 1] == b[|b| - 1]
  {
    var run := a + b[1..];
    forall i | 0 <= i < |run| - 1 ensures StepAt(run, step, i) {
      if i < |a| - 1 {
        assert StepAt(a, step, i);
      } else {
        assert StepAt(b, step, i - |a| + 1);
      }
    }
  }

  // ---------------------------------------------------------------- steps with labels

  /** Steps one after the other; `states` are the states between them. */
  ghost predicate StepByStep<S(!new), J(!new)>(states: seq<S>, jobs: seq<J>, step: (S, S, J) -> bool) {
    |states| == |jobs| + 1 && forall i {:trigger jobs[i]} :: 0 <= i < |jobs| ==> step(states[i], states[i + 1], jobs[i])
  }

  lemma OneMoreStep<S(!new), J(!new)>(states: seq<S>, jobs: seq<J>, step: (S, S, J) -> bool, t: S, job: J)
    requires StepByStep(states, jobs, step) && step(states[|jobs|], t, job)
    ensures StepByStep(states + [t], jobs + [job], step)
  {}

  lemma TwoSteps<S(!new), J(!new)>(a: S, b: S, c: S, first: J, second: J, step: (S, S, J) -> bool)
    requires step(a, b, first) && step(b, c, second)
    ensures StepByStep([a, b, c], [first, second], step)
  {}
}
