/** Progress and the bound on moves together: the pool comes to rest, and then every task is answered. */
module PoolRest {
  import opened WorkQueue
  import opened PoolSteps
  import opened PoolShape
  import opened PoolOwnership
  import opened PoolRuns
  import opened PoolProgress
  import opened PoolVariant

  /** After the last submission, a state in which no thread can move has every task ever submitted answered, and it lies
      within the limit of moves. */
  lemma RestMeansAnswered(trace: seq<State>, steps: seq<Step>, l: Limits, workers: nat, i: nat, j: nat)
    requires Run(trace, steps, l, workers) && i <= j < |trace| && workers > 0
    requires (forall k :: i <= k < j ==> !steps[k].Arrive?) && !CanMove(trace[j], l)
    ensures forall t :: Submitted(trace[j], t) ==> t in trace[j].answered
    ensures MoveCount(steps[i..j]) <= MoveLimit(|trace[i].threads|)
  {
    forall t | Submitted(trace[j], t) ensures t in trace[j].answered {
      if t !in trace[j].answered {
        UnansweredMeansMovable(trace, steps, l, workers, j, t);
      }
    }
    MovesAreBounded(trace, steps, l, workers, i, j);
  }

  lemma OneStepOn(trace: seq<State>, steps: seq<Step>, l: Limits, workers: nat, step: Step)
    requires Run(trace, steps, l, workers) && Enabled(trace[|steps|], step, l)
    ensures Run(trace + [Take(trace[|steps|], step, l)], steps + [step], l, workers)
  {
    var n, trace', steps' := |steps|, trace + [Take(trace[|steps|], step, l)], steps + [step];
    forall i | 0 <= i < |steps'|
      ensures Enabled(trace'[i], steps'[i], l) && trace'[i + 1] == Take(trace'[i], steps'[i], l)
    {
      assert i < n ==> trace'[i] == trace[i] && trace'[i + 1] == trace[i + 1] && steps'[i] == steps[i];
    }
  }

  lemma MoveSpends(trace: seq<State>, steps: seq<Step>, l: Limits, workers: nat, step: Step)
    requires Run(trace, steps, l, workers) && IsMove(step) && Enabled(trace[|steps|], step, l)
    ensures Budget(Take(trace[|steps|], step, l)) < Budget(trace[|steps|])
  {
    var place := RunOwned(trace, steps, l, workers, |steps|);
    RunKeepsShape(trace, steps, l, workers, |steps|);
    StepSpends(trace[|steps|], step, l, place);
  }

  ghost predicate OnlyMoves(steps: seq<Step>, from: nat) {
    forall k :: from <= k < |steps| ==> IsMove(steps[k])
  }

  /** From every reachable state the threads' own moves lead to such a state, without clock, timer or submission. */
  lemma {:induction false} MovesReachRest(trace: seq<State>, steps: seq<Step>, l: Limits, workers: nat)
    returns (trace': seq<State>, steps': seq<Step>)
    requires Run(trace, steps, l, workers)
    ensures Run(trace', steps', l, workers) && trace <= trace' && steps <= steps' && OnlyMoves(steps', |steps|)
    ensures !CanMove(trace'[|steps'|], l)
    decreases Budget(trace[|steps|])
  {
    var s := trace[|steps|];
    if CanMove(s, l) {
      var step :| IsMove(step) && Enabled(s, step, l);
      OneStepOn(trace, steps, l, workers, step);
      MoveSpends(trace, steps, l, workers, step);
      trace', steps' := MovesReachRest(trace + [Take(s, step, l)], steps + [step], l, workers);
      assert steps'[|steps|] == (steps + [step])[|steps|];
    } else {
      trace', steps' := trace, steps;
    }
  }

  /** So from every reachable state every submitted task gets its answer within the limit of moves. */
  lemma EveryTaskGetsItsAnswer(trace: seq<State>, steps: seq<Step>, l: Limits, workers: nat)
    returns (trace': seq<State>, steps': seq<Step>)
    requires Run(trace, steps, l, workers) && workers > 0
    ensures Run(trace', steps', l, workers) && trace <= trace' && steps <= steps' && OnlyMoves(steps', |steps|)
    ensures forall t :: Submitted(trace[|steps|], t) ==> t in trace'[|steps'|].answered
    ensures |steps'| - |steps| <= MoveLimit(|trace[|steps|].threads|)
  {
    var n := |steps|;
    trace', steps' := MovesReachRest(trace, steps, l, workers);
    assert forall k :: n <= k < |steps'| ==> IsMove(steps'[k]) && !steps'[k].Arrive?;
    RestMeansAnswered(trace', steps', l, workers, n, |steps'|);
    AllCount(steps'[n..]);
    assert steps'[n..|steps'|] == steps'[n..];
    assert trace'[n] == trace[n];
    forall t | Submitted(trace[n], t) ensures Submitted(trace'[|steps'|], t) {
      SubmittedStays(trace', steps', l, workers, n, |steps'|, t);
    }
  }

  lemma {:induction false} AllCount(steps: seq<Step>)
    requires OnlyMoves(steps, 0)
    ensures MoveCount(steps) == |steps|
  {
    if steps != [] {
      AllCount(steps[..|steps| - 1]);
    }
  }

  lemma PurgeKeepsThreads(s: State, th: Thread, l: Limits)
    ensures Purge(s, th, l).threads.Keys == s.threads.Keys
  {}

  lemma SubmittedSolo(s: State, step: Step, l: Limits, t: Task)
    requires Enabled(s, step, l) && Submitted(s, t) && Solo(step)
    ensures Submitted(Take(s, step, l), t)
  {}

  lemma SubmittedAnswer(s: State, step: Step, l: Limits, t: Task)
    requires Enabled(s, step, l) && Submitted(s, t) && Answers(step)
    ensures Submitted(Take(s, step, l), t)
  {}

  lemma SubmittedLock(s: State, step: Step, l: Limits, t: Task)
    requires Enabled(s, step, l) && Submitted(s, t) && (step.Lock? || step.Rewait?)
    ensures Submitted(Take(s, step, l), t)
  {
    PurgeKeepsThreads(s, Submitter(step.task), l);
    PurgeKeepsThreads(Arm(s, step.task), Submitter(step.task), l);
  }

  lemma SubmittedPurge(s: State, step: Step, l: Limits, t: Task)
    requires Enabled(s, step, l) && Submitted(s, t) && (step.Collect? || step.Pop?)
    ensures Submitted(Take(s, step, l), t)
  {
    PurgeKeepsThreads(s, if step.Pop? then Worker(step.n) else step.th, l);
  }

  lemma SubmittedStep(s: State, step: Step, l: Limits, t: Task)
    requires Enabled(s, step, l) && Submitted(s, t)
    ensures Submitted(Take(s, step, l), t)
  {
    if Solo(step) {
      SubmittedSolo(s, step, l, t);
    } else if Answers(step) {
      SubmittedAnswer(s, step, l, t);
    } else if step.Lock? || step.Rewait? {
      SubmittedLock(s, step, l, t);
    } else if step.Collect? || step.Pop? {
      SubmittedPurge(s, step, l, t);
    }
  }

  lemma {:induction false} SubmittedStays(trace: seq<State>, steps: seq<Step>, l: Limits, workers: nat, i: nat, j: nat,
                                          t: Task)
    requires Run(trace, steps, l, workers) && i <= j < |trace| && Submitted(trace[i], t)
    ensures Submitted(trace[j], t)
    decreases j
  {
    if i < j {
      SubmittedStays(trace, steps, l, workers, i, j - 1, t);
      SubmittedStep(trace[j - 1], steps[j - 1], l, t);
    }
  }
}
