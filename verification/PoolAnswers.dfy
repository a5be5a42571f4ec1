/** What an answer of the pool means: who is served, who is refused, and why. Whether a task is late is written
    out, so that each result reads on its own. */
module PoolAnswers {
  import opened Wrappers
  import opened WorkQueue
  import opened PoolSteps
  import opened PoolShape
  import opened PoolRuns

  // ---------- why a thread is about to refuse a task ----------

  /** What `th` holds as expired was late when it was taken from the queue, and still is; and a submitter refuses its own
      task as expired because it is late, because its wait timed out, or because the pool is closed. */
  ghost predicate Grounded(s: State, th: Thread, l: Limits) {
    && (th in s.dead ==> forall t :: t in s.dead[th] ==> Late(t, s.now, l))
    && (th.Submitter? && At(s, th, Expiring) ==> Late(th.task, s.now, l) || s.threads[th].timedOut || s.closed)
  }

  lemma DeadIsLate(q: seq<Task>, now: int, l: Limits)
    ensures forall t :: t in Dead(q, now, l) ==> Late(t, now, l)
  {
    forall t | t in Dead(q, now, l) ensures Late(t, now, l) {
      SplitMembers(q, now, l, t);
    }
  }

  lemma PurgeGrounded(s: State, me: Thread, th: Thread, l: Limits)
    requires Grounded(s, th, l)
    ensures Grounded(Purge(s, me, l), th, l)
  {
    DeadIsLate(s.queue, s.now, l);
  }

  lemma MoveGrounded(s: State, me: Thread, pc: Pc, th: Thread, l: Limits)
    requires Grounded(s, th, l) && me in s.threads
    requires me.Submitter? && pc == Expiring ==> Late(me.task, s.now, l) || s.threads[me].timedOut || s.closed
    ensures Grounded(Move(s, me, pc), th, l)
  {}

  lemma AnswerGrounded(s: State, step: Step, l: Limits, th: Thread)
    requires Grounded(s, th, l) && Enabled(s, step, l) && Answers(step)
    ensures Grounded(Take(s, step, l), th, l)
  {}

  lemma SoloGrounded(s: State, step: Step, l: Limits, th: Thread)
    requires Grounded(s, th, l) && Enabled(s, step, l) && Solo(step)
    ensures Grounded(Take(s, step, l), th, l)
  {}

  lemma BellGrounded(s: State, step: Step, l: Limits, th: Thread)
    requires Grounded(s, th, l) && Enabled(s, step, l)
    requires step.Arrive? || step.Fire? || step.CloseStop? || step.CloseLock?
    ensures Grounded(Take(s, step, l), th, l)
  {}

  lemma PopGrounded(s: State, n: nat, l: Limits, th: Thread)
    requires Grounded(s, th, l) && Worker(n) in s.threads
    ensures Grounded(PopLocked(s, n, l), th, l)
  {
    var p := Purge(s, Worker(n), l);
    PurgeGrounded(s, Worker(n), th, l);
    if p.queue != [] {
      TakeHeadGrounded(p, n, l, th);
    }
  }

  lemma TakeHeadGrounded(s: State, n: nat, l: Limits, th: Thread)
    requires Grounded(s, th, l) && s.queue != [] && Worker(n) in s.threads
    ensures Grounded(TakeHead(s, n), th, l)
  {}

  lemma DozeGrounded(s: State, t: Task, l: Limits, th: Thread)
    requires Grounded(s, th, l) && Submitter(t) in s.threads
    ensures Grounded(Doze(s, t, l), th, l)
  {
    PurgeGrounded(s, Submitter(t), th, l);
  }

  lemma EnqueueGrounded(s: State, t: Task, who: Option<Thread>, l: Limits, th: Thread)
    requires Grounded(s, th, l) && Submitter(t) in s.threads && MaySignal(s, who)
    ensures Grounded(Enqueue(s, t, who), th, l)
  {}

  lemma ArmGrounded(s: State, t: Task, l: Limits, th: Thread)
    requires Grounded(s, th, l) && Submitter(t) in s.threads
    ensures Grounded(Arm(s, t), th, l)
  {}

  lemma LockGrounded(s: State, step: Step, l: Limits, th: Thread)
    requires Grounded(s, th, l) && Enabled(s, step, l) && (step.Lock? || step.Rewait?)
    ensures Grounded(Take(s, step, l), th, l)
  {
    var t := step.task;
    if s.closed {
      MoveGrounded(s, Submitter(t), Expiring, th, l);
    } else if !Full(s, l) {
      EnqueueGrounded(s, t, step.who, l, th);
    } else if step.Rewait? && !s.threads[Submitter(t)].timedOut {
      DozeGrounded(s, t, l, th);
    } else if step.Lock? && l.wait && !Late(t, s.now, l) {
      ArmGrounded(s, t, l, th);
      DozeGrounded(Arm(s, t), t, l, th);
    } else {
      MoveGrounded(s, Submitter(t), if step.Lock? && !l.wait then Shedding else Expiring, th, l);
    }
  }

  lemma StepGrounded(s: State, step: Step, l: Limits, th: Thread)
    requires Grounded(s, th, l) && Enabled(s, step, l)
    ensures Grounded(Take(s, step, l), th, l)
  {
    if Solo(step) {
      SoloGrounded(s, step, l, th);
    } else if Answers(step) {
      AnswerGrounded(s, step, l, th);
    } else if step.Collect? {
      PurgeGrounded(s, step.th, th, l);
    } else if step.Pop? {
      PopGrounded(s, step.n, l, th);
    } else if step.Lock? || step.Rewait? {
      LockGrounded(s, step, l, th);
    } else {
      BellGrounded(s, step, l, th);
    }
  }

  lemma {:induction false} RunGrounded(trace: seq<State>, steps: seq<Step>, l: Limits, workers: nat, i: nat, th: Thread)
    requires Run(trace, steps, l, workers) && i < |trace|
    ensures Grounded(trace[i], th, l)
  {
    if i > 0 {
      RunGrounded(trace, steps, l, workers, i - 1, th);
      StepGrounded(trace[i - 1], steps[i - 1], l, th);
    }
  }

  // ---------- who is over the limit ----------

  lemma PurgeSheds(s: State, me: Thread, l: Limits, th: Thread)
    ensures At(Purge(s, me, l), th, Shedding) <==> At(s, th, Shedding)
  {}

  lemma DozeSheds(s: State, u: Task, l: Limits, th: Thread)
    requires Submitter(u) in s.threads && At(Doze(s, u, l), th, Shedding)
    ensures At(s, th, Shedding)
  {
    PurgeSheds(s, Submitter(u), l, th);
  }

  lemma PopSheds(s: State, n: nat, l: Limits, th: Thread)
    requires Worker(n) in s.threads && At(PopLocked(s, n, l), th, Shedding)
    ensures At(s, th, Shedding)
  {
    var p := Purge(s, Worker(n), l);
    PurgeSheds(s, Worker(n), l, th);
    if p.queue != [] {
      TakeHeadSheds(p, n, th);
    }
  }

  lemma TakeHeadSheds(s: State, n: nat, th: Thread)
    requires Worker(n) in s.threads && s.queue != [] && At(TakeHead(s, n), th, Shedding)
    ensures At(s, th, Shedding)
  {}

  lemma EnqueueSheds(s: State, t: Task, who: Option<Thread>, th: Thread)
    requires Submitter(t) in s.threads && MaySignal(s, who) && At(Enqueue(s, t, who), th, Shedding)
    ensures At(s, th, Shedding)
  {}

  lemma LockSheds(s: State, step: Step, l: Limits, th: Thread)
    requires Enabled(s, step, l) && (step.Lock? || step.Rewait?)
    requires At(Take(s, step, l), th, Shedding) && !At(s, th, Shedding)
    ensures step.Lock? && th == Submitter(step.task) && !s.closed && Full(s, l) && !l.wait
  {
    var t := step.task;
    if !s.closed && !Full(s, l) {
      EnqueueSheds(s, t, step.who, th);
    } else if !s.closed && step.Rewait? && !s.threads[Submitter(t)].timedOut {
      DozeSheds(s, t, l, th);
    } else if !s.closed && step.Lock? && l.wait && !Late(t, s.now, l) {
      DozeSheds(Arm(s, t), t, l, th);
    }
  }

  lemma SoloSheds(s: State, step: Step, l: Limits, th: Thread)
    requires Enabled(s, step, l) && Solo(step) && At(Take(s, step, l), th, Shedding)
    ensures At(s, th, Shedding)
  {}

  lemma AnswerSheds(s: State, step: Step, l: Limits, th: Thread)
    requires Enabled(s, step, l) && Answers(step) && At(Take(s, step, l), th, Shedding)
    ensures At(s, th, Shedding)
  {}

  lemma BellSheds(s: State, step: Step, l: Limits, th: Thread)
    requires Enabled(s, step, l) && (step.Arrive? || step.Fire? || step.CloseStop? || step.CloseLock?)
    requires At(Take(s, step, l), th, Shedding)
    ensures At(s, th, Shedding)
  {}

  /** Only a look at a full and open queue makes a submitter shed its task, and only if the pool does not wait. */
  lemma BeginsShedding(s: State, step: Step, l: Limits, th: Thread)
    requires Enabled(s, step, l) && !At(s, th, Shedding) && At(Take(s, step, l), th, Shedding)
    ensures step.Lock? && th == Submitter(step.task) && !s.closed && Full(s, l) && !l.wait
  {
    if step.Lock? || step.Rewait? {
      LockSheds(s, step, l, th);
    } else if step.Pop? {
      PopSheds(s, step.n, l, th);
      assert false;
    } else if step.Collect? {
      PurgeSheds(s, step.th, l, th);
    } else if Solo(step) {
      SoloSheds(s, step, l, th);
      assert false;
    } else if Answers(step) {
      AnswerSheds(s, step, l, th);
      assert false;
    } else {
      BellSheds(s, step, l, th);
      assert false;
    }
  }

  lemma NobodySheds(workers: nat, now: int, t: Task)
    ensures !At(Initial(workers, now), Submitter(t), Shedding)
  {}

  lemma RunStep(trace: seq<State>, steps: seq<Step>, l: Limits, workers: nat, i: nat) returns (s: State, step: Step)
    requires Run(trace, steps, l, workers) && i < |steps|
    ensures s == trace[i] && step == steps[i] && Enabled(s, step, l) && trace[i + 1] == Take(s, step, l)
  {
    s, step := trace[i], steps[i];
  }

  lemma {:induction false} ShedderSawFull(trace: seq<State>, steps: seq<Step>, l: Limits, workers: nat, i: nat, t: Task)
    returns (j: nat)
    requires Run(trace, steps, l, workers) && i < |trace| && At(trace[i], Submitter(t), Shedding)
    ensures j < i && steps[j].Lock? && steps[j].task == t
    ensures !trace[j].closed && |trace[j].queue| >= l.depth && !l.wait
  {
    NobodySheds(workers, trace[0].now, t);
    j := i - 1;
    var s, step := RunStep(trace, steps, l, workers, j);
    if At(s, Submitter(t), Shedding) {
      j := ShedderSawFull(trace, steps, l, workers, i - 1, t);
    } else {
      BeginsShedding(s, step, l, Submitter(t));
    }
  }

  // ---------- what an answer means ----------

  /** A worker serves the task in its hand if enough of the deadline is left, and refuses it as expired otherwise. A batch
      is answered as expired, and every task in it is late. A submitter's own task is answered as expired only if it is
      late, its wait timed out or the pool is closed, and as over the limit only if the pool does not wait and the
      submitter found the queue full and the pool open. No other step answers anything. */
  lemma AnswersMean(trace: seq<State>, steps: seq<Step>, l: Limits, workers: nat, i: nat)
    requires Run(trace, steps, l, workers) && i < |steps|
    ensures match steps[i]
      case Handle(n) =>
        && Worker(n) in trace[i].hand
        && var t := trace[i].hand[Worker(n)];
           && trace[i + 1].answered == trace[i].answered + [t]
           && trace[i + 1].reasons == trace[i].reasons
                + [if t.deadline - (trace[i].now - t.enqueued) - l.reserve < l.minBudget then Expired else Served]
      case ReplyDead(th) =>
        && th in trace[i].dead && trace[i].dead[th] != []
        && var t := trace[i].dead[th][0];
           && trace[i + 1].answered == trace[i].answered + [t] && trace[i + 1].reasons == trace[i].reasons + [Expired]
           && t.deadline - (trace[i].now - t.enqueued) - l.reserve < l.minBudget
      case Expire(t) =>
        && trace[i + 1].answered == trace[i].answered + [t] && trace[i + 1].reasons == trace[i].reasons + [Expired]
        && (t.deadline - (trace[i].now - t.enqueued) - l.reserve < l.minBudget
            || trace[i].threads[Submitter(t)].timedOut || trace[i].closed)
      case Shed(t) =>
        && trace[i + 1].answered == trace[i].answered + [t] && trace[i + 1].reasons == trace[i].reasons + [Limited]
        && !l.wait
        && exists j :: 0 <= j < i && steps[j].Lock? && steps[j].task == t
             && !trace[j].closed && |trace[j].queue| >= l.depth
      case _ => trace[i + 1].answered == trace[i].answered && trace[i + 1].reasons == trace[i].reasons
  {
    var s, step := RunStep(trace, steps, l, workers, i);
    match step
    case Handle(n) => WorkerAnswers(s, n, l);
    case ReplyDead(th) =>
      RunGrounded(trace, steps, l, workers, i, th);
      BatchAnswers(s, th, l);
    case Expire(t) =>
      RunGrounded(trace, steps, l, workers, i, Submitter(t));
      SubmitterAnswers(s, step, t, l);
    case Shed(t) =>
      var j := ShedderSawFull(trace, steps, l, workers, i, t);
      SubmitterAnswers(s, step, t, l);
    case _ => OtherAnswers(s, step, l);
  }

  lemma WorkerAnswers(s: State, n: nat, l: Limits)
    requires Enabled(s, Handle(n), l)
    ensures Worker(n) in s.hand
    ensures var s', t := Take(s, Handle(n), l), s.hand[Worker(n)];
      && s'.answered == s.answered + [t]
      && s'.reasons == s.reasons
           + [if t.deadline - (s.now - t.enqueued) - l.reserve < l.minBudget then Expired else Served]
  {}

  lemma BatchAnswers(s: State, th: Thread, l: Limits)
    requires Grounded(s, th, l) && Enabled(s, ReplyDead(th), l)
    ensures var s', t := Take(s, ReplyDead(th), l), s.dead[th][0];
      && s'.answered == s.answered + [t] && s'.reasons == s.reasons + [Expired]
      && t.deadline - (s.now - t.enqueued) - l.reserve < l.minBudget
  {
    assert s.dead[th][0] in s.dead[th];
  }

  lemma SubmitterAnswers(s: State, step: Step, t: Task, l: Limits)
    requires Enabled(s, step, l) && (step == Expire(t) || step == Shed(t))
    ensures var s' := Take(s, step, l);
      && s'.answered == s.answered + [t]
      && s'.reasons == s.reasons + [if step == Expire(t) then Expired else Limited]
  {}

  lemma OtherAnswers(s: State, step: Step, l: Limits)
    requires Enabled(s, step, l) && !Answers(step)
    ensures Take(s, step, l).answered == s.answered && Take(s, step, l).reasons == s.reasons
  {
    if step.Lock? || step.Rewait? {
      LockBooks(s, step, l);
    } else {
      OtherBooks(s, step, l);
    }
  }

  /** Under the lock a submitter always gets a decision. A closed pool refuses the task as expired, and room in an open
      one takes it. A full queue sheds the task if the pool does not wait; otherwise it refuses a task that is late or
      whose wait has timed out, and lets any other wait, with a timer, for room, for the timer or for Close. */
  lemma LockSettles(trace: seq<State>, steps: seq<Step>, l: Limits, workers: nat, i: nat, t: Task, next: Pc)
    requires Run(trace, steps, l, workers) && i < |steps|
    requires (steps[i].Lock? || steps[i].Rewait?) && steps[i].task == t
    requires Submitter(t) in trace[i + 1].threads && next == trace[i + 1].threads[Submitter(t)].pc
    ensures var late := t.deadline - (trace[i].now - t.enqueued) - l.reserve < l.minBudget;
      var timedOut := Submitter(t) in trace[i].threads && trace[i].threads[Submitter(t)].timedOut;
      if trace[i].closed then next == Expiring
      else if |trace[i].queue| < l.depth then next == Gone && trace[i + 1].queue == trace[i].queue + [t]
      else if steps[i].Lock? && !l.wait then next == Shedding
      else if (if steps[i].Lock? then late else timedOut) then next == Expiring
      else
        && (next == Asleep || (next == Waiting && Submitter(t) in trace[i + 1].dead))
        && (steps[i].Lock? ==> trace[i + 1].threads[Submitter(t)].armed)
  {
    var s, step := RunStep(trace, steps, l, workers, i);
    if !s.closed && Full(s, l) {
      if step.Rewait? && !s.threads[Submitter(t)].timedOut {
        DozeSettles(s, t, l);
      } else if step.Lock? && l.wait && !Late(t, s.now, l) {
        DozeSettles(Arm(s, t), t, l);
      }
    } else if !s.closed {
      LockQueue(s, step, l);
    }
  }

  /** The first look refuses a task that is late on arrival and lets any other through to the queue. */
  lemma FirstLook(trace: seq<State>, steps: seq<Step>, l: Limits, workers: nat, i: nat, t: Task)
    requires Run(trace, steps, l, workers) && i < |steps| && steps[i] == Check(t)
    ensures Submitter(t) in trace[i + 1].threads
    ensures trace[i + 1].threads[Submitter(t)].pc
         == if t.deadline - (trace[i].now - t.enqueued) - l.reserve < l.minBudget then Expiring else Collecting
  {
    var s, step := RunStep(trace, steps, l, workers, i);
  }

  lemma DozeSettles(s: State, t: Task, l: Limits)
    requires Submitter(t) in s.threads
    ensures var me, s' := Submitter(t), Doze(s, t, l);
      me in s'.threads && s'.threads[me].armed == s.threads[me].armed
      && if me in s'.dead then s'.threads[me].pc == Waiting else s'.threads[me].pc == Asleep
  {}

  /** A task enters the queue in one way only: its submitter, under the lock, finds the pool open and room in the queue. */
  lemma EntersExactly(trace: seq<State>, steps: seq<Step>, l: Limits, workers: nat, i: nat)
    requires Run(trace, steps, l, workers) && i < |steps|
    ensures trace[i + 1].entered
         == if (steps[i].Lock? || steps[i].Rewait?) && !trace[i].closed && |trace[i].queue| < l.depth
            then trace[i].entered + [steps[i].task] else trace[i].entered
  {
    if steps[i].Lock? || steps[i].Rewait? {
      LockBooks(trace[i], steps[i], l);
    } else if !Answers(steps[i]) {
      OtherBooks(trace[i], steps[i], l);
    }
  }

  /** A worker that looks for a task takes the first one in the queue with enough of its deadline left, past the late
      ones, and it takes none only if all are late. */
  lemma PopTakesFirst(trace: seq<State>, steps: seq<Step>, l: Limits, workers: nat, i: nat, n: nat, k: nat)
    requires Run(trace, steps, l, workers) && i < |steps| && steps[i] == Pop(n)
    requires k <= |trace[i].queue|
    requires forall j :: 0 <= j < k ==>
      var t := trace[i].queue[j]; t.deadline - (trace[i].now - t.enqueued) - l.reserve < l.minBudget
    requires k < |trace[i].queue| ==>
      var t := trace[i].queue[k]; t.deadline - (trace[i].now - t.enqueued) - l.reserve >= l.minBudget
    ensures if k < |trace[i].queue|
            then && trace[i + 1].taken == trace[i].taken + [trace[i].queue[k]]
                 && Worker(n) in trace[i + 1].hand && trace[i + 1].hand[Worker(n)] == trace[i].queue[k]
            else trace[i + 1].taken == trace[i].taken && trace[i + 1].queue == []
  {
    KeptHead(trace[i].queue, trace[i].now, l, k);
  }

  lemma {:induction false} KeptHead(q: seq<Task>, now: int, l: Limits, k: nat)
    requires k <= |q| && (forall j :: 0 <= j < k ==> Late(q[j], now, l)) && (k < |q| ==> !Late(q[k], now, l))
    ensures if k < |q| then Kept(q, now, l) != [] && Kept(q, now, l)[0] == q[k] else Kept(q, now, l) == []
  {
    if q != [] {
      var n := |q| - 1;
      KeptHead(q[..n], now, l, if k < n then k else n);
    }
  }
}
