/** What the pool guarantees over whole runs. */
module PoolRuns {
  import opened Sequences
  import opened WorkQueue
  import opened PoolSteps
  import opened PoolShape
  import opened PoolOwnership

  // ---------- exactly once ----------

  ghost predicate Submitted(s: State, t: Task) {
    Submitter(t) in s.threads
  }

  /** At any moment of any run the handler was called at most once per task, only for submitted tasks,
      and never for a task still queued, in a batch, or in a thread's hands. */
  lemma AnsweredAtMostOnce(trace: seq<State>, steps: seq<Step>, l: Limits, workers: nat, i: nat)
    requires Run(trace, steps, l, workers) && i < |trace|
    ensures NoRepeats(trace[i].answered)
    ensures forall t :: t in trace[i].answered ==>
      && Submitted(trace[i], t) && t !in trace[i].queue
      && (forall th :: th in trace[i].dead ==> t !in trace[i].dead[th])
      && (forall th :: th in trace[i].hand ==> trace[i].hand[th] != t)
  {
    var s := trace[i];
    var place := RunOwned(trace, steps, l, workers, i);
    forall t | t in s.answered
      ensures Submitted(s, t) && t !in s.queue
      ensures forall th :: th in s.dead ==> t !in s.dead[th]
      ensures forall th :: th in s.hand ==> s.hand[th] != t
    {
      assert Is(place, t, Done);
      forall th | th in s.dead ensures t !in s.dead[th] {
        assert t in s.dead[th] ==> Is(place, t, InDead(th));
      }
      forall th | th in s.hand ensures s.hand[th] != t {
        assert s.hand[th] == t ==> Is(place, t, InHand(th));
      }
    }
  }

  /** No task is lost: a submitted task is answered, queued, in a batch, or in some thread's hands. */
  lemma NoTaskIsLost(trace: seq<State>, steps: seq<Step>, l: Limits, workers: nat, i: nat, t: Task)
    requires Run(trace, steps, l, workers) && i < |trace| && Submitted(trace[i], t)
    ensures t in trace[i].answered || t in trace[i].queue
      || (exists th :: th in trace[i].dead && t in trace[i].dead[th])
      || (exists th :: th in trace[i].hand && trace[i].hand[th] == t)
  {
    var s := trace[i];
    var place := RunOwned(trace, steps, l, workers, i);
    assert t in place;
    match place[t]
    case InQueue => assert Is(place, t, InQueue);
    case InDead(th) => assert Is(place, t, InDead(th));
    case InHand(th) => assert Is(place, t, InHand(th));
    case Done => assert Is(place, t, Done);
  }

  /** When Close has returned and every Submit call has, each submitted task was answered, exactly once,
      and the queue is empty. */
  lemma CloseDrains(trace: seq<State>, steps: seq<Step>, l: Limits, workers: nat, i: nat)
    requires Run(trace, steps, l, workers) && i < |trace| && workers > 0
    requires At(trace[i], Closer, Gone)
    ensures trace[i].queue == []
    ensures (forall t :: Submitted(trace[i], t) ==> At(trace[i], Submitter(t), Gone)) ==>
      NoRepeats(trace[i].answered) && forall t :: Submitted(trace[i], t) <==> t in trace[i].answered
  {
    var s := trace[i];
    RunKeepsShape(trace, steps, l, workers, i);
    AnsweredAtMostOnce(trace, steps, l, workers, i);
    assert ThreadOk(s, Worker(0)) && Worker(0) in s.threads;
    if forall t :: Submitted(s, t) ==> At(s, Submitter(t), Gone) {
      forall t | Submitted(s, t) ensures t in s.answered {
        NoTaskIsLost(trace, steps, l, workers, i, t);
        forall th ensures th !in s.dead && th !in s.hand {
          assert ThreadOk(s, th);
          assert th.Submitter? && th in s.threads ==> Submitted(s, th.task);
        }
      }
    }
  }

  // ---------- the counters ----------

  ghost predicate Counted(s: State) {
    && |s.reasons| == |s.answered|
    && s.expired == multiset(s.reasons)[Expired] && s.shed == multiset(s.reasons)[Limited]
    && s.accepted == |s.entered|
  }

  lemma AnswerCounted(s: State, t: Task, r: Reason)
    requires Counted(s)
    ensures Counted(Answer(s, t, r))
  {}

  /** What only enqueuing and answering change. */
  ghost predicate SameBooks(s: State, s': State) {
    && s'.reasons == s.reasons && s'.answered == s.answered && s'.expired == s.expired && s'.shed == s.shed
    && s'.accepted == s.accepted && s'.entered == s.entered
  }

  predicate Answers(step: Step) {
    step.ReplyDead? || step.Expire? || step.Shed? || step.Handle?
  }

  lemma PurgeBooks(s: State, th: Thread, l: Limits)
    ensures SameBooks(s, Purge(s, th, l))
  {}

  lemma PopBooks(s: State, n: nat, l: Limits)
    requires Worker(n) in s.threads
    ensures SameBooks(s, PopLocked(s, n, l))
  {
    PurgeBooks(s, Worker(n), l);
  }

  lemma DozeBooks(s: State, t: Task, l: Limits)
    requires Submitter(t) in s.threads
    ensures SameBooks(s, Doze(s, t, l))
  {
    PurgeBooks(s, Submitter(t), l);
  }

  lemma LockBooks(s: State, step: Step, l: Limits)
    requires Enabled(s, step, l) && (step.Lock? || step.Rewait?)
    ensures var s' := Take(s, step, l);
      if !s.closed && !Full(s, l)
      then SameBooks(s, s'.(accepted := s.accepted, entered := s.entered))
           && s'.accepted == s.accepted + 1 && s'.entered == s.entered + [step.task]
      else SameBooks(s, s')
  {
    DozeBooks(s, step.task, l);
    DozeBooks(Arm(s, step.task), step.task, l);
  }

  lemma SoloBooks(s: State, step: Step, l: Limits)
    requires Enabled(s, step, l) && Solo(step)
    ensures SameBooks(s, Take(s, step, l))
  {}

  lemma OtherBooks(s: State, step: Step, l: Limits)
    requires Enabled(s, step, l) && !Answers(step) && !step.Lock? && !step.Rewait?
    ensures SameBooks(s, Take(s, step, l))
  {
    if Solo(step) {
      SoloBooks(s, step, l);
    } else if step.Collect? {
      PurgeBooks(s, step.th, l);
    } else if step.Pop? {
      PopBooks(s, step.n, l);
    } else {
      BellBooks(s, step, l);
    }
  }

  lemma BellBooks(s: State, step: Step, l: Limits)
    requires Enabled(s, step, l) && (step.Arrive? || step.Fire? || step.CloseStop? || step.CloseLock?)
    ensures SameBooks(s, Take(s, step, l))
  {}

  lemma StepCounted(s: State, step: Step, l: Limits)
    requires Counted(s) && Enabled(s, step, l)
    ensures Counted(Take(s, step, l))
  {
    if step.Lock? || step.Rewait? {
      LockBooks(s, step, l);
    } else if !Answers(step) {
      OtherBooks(s, step, l);
    } else {
      match step
      case ReplyDead(th) => AnswerCounted(s, s.dead[th][0], Expired);
      case Expire(t) => AnswerCounted(s, t, Expired);
      case Shed(t) => AnswerCounted(s, t, Limited);
      case Handle(n) =>
        AnswerCounted(s, s.hand[Worker(n)], if Late(s.hand[Worker(n)], s.now, l) then Expired else Served);
    }
  }

  /** `Expired` and `Shed` are the numbers of answers with these reasons, `Accepted` that of enqueues. */
  lemma {:induction false} CountersAreExact(trace: seq<State>, steps: seq<Step>, l: Limits, workers: nat, i: nat)
    requires Run(trace, steps, l, workers) && i < |trace|
    ensures |trace[i].reasons| == |trace[i].answered| && trace[i].accepted == |trace[i].entered|
    ensures trace[i].expired == multiset(trace[i].reasons)[Expired]
    ensures trace[i].shed == multiset(trace[i].reasons)[Limited]
  {
    if i > 0 {
      CountersAreExact(trace, steps, l, workers, i - 1);
      StepCounted(trace[i - 1], steps[i - 1], l);
    }
  }

  // ---------- first in, first out ----------

  ghost predicate InOrder(s: State) {
    Within(s.taken + s.queue, s.entered)
  }

  lemma PurgeInOrder(s: State, th: Thread, l: Limits)
    requires InOrder(s)
    ensures InOrder(Purge(s, th, l))
  {
    KeptInOrder(s, l);
  }

  predicate TouchesQueue(step: Step) {
    step.Collect? || step.Pop? || step.Lock? || step.Rewait?
  }

  lemma OtherOrder(s: State, step: Step, l: Limits)
    requires Enabled(s, step, l) && !TouchesQueue(step)
    ensures var s' := Take(s, step, l); s'.taken == s.taken && s'.queue == s.queue && s'.entered == s.entered
  {}

  lemma PopInOrder(s: State, n: nat, l: Limits)
    requires InOrder(s) && Enabled(s, Pop(n), l)
    ensures InOrder(Take(s, Pop(n), l))
  {
    PurgeInOrder(s, Worker(n), l);
    var p := Purge(s, Worker(n), l);
    if p.queue != [] {
      HeadInOrder(p, n);
    }
  }

  lemma HeadInOrder(p: State, n: nat)
    requires InOrder(p) && p.queue != [] && Worker(n) in p.threads
    ensures InOrder(TakeHead(p, n))
  {
    assert p.taken + p.queue == (p.taken + [p.queue[0]]) + p.queue[1..];
  }

  lemma DozeQueue(s: State, t: Task, l: Limits)
    requires Submitter(t) in s.threads
    ensures var s' := Doze(s, t, l);
      s'.taken == s.taken && s'.entered == s.entered && s'.queue == Kept(s.queue, s.now, l)
  {}

  /** What a submitter's locked section does to the queue. */
  lemma LockQueue(s: State, step: Step, l: Limits)
    requires Enabled(s, step, l) && (step.Lock? || step.Rewait?)
    ensures var s' := Take(s, step, l);
      && s'.taken == s.taken
      && if !s.closed && !Full(s, l) then s'.queue == s.queue + [step.task] && s'.entered == s.entered + [step.task]
         else s'.entered == s.entered && (s'.queue == s.queue || s'.queue == Kept(s.queue, s.now, l))
  {
    DozeQueue(s, step.task, l);
    DozeQueue(Arm(s, step.task), step.task, l);
  }

  lemma LockInOrder(s: State, step: Step, l: Limits)
    requires InOrder(s) && Enabled(s, step, l) && (step.Lock? || step.Rewait?)
    ensures InOrder(Take(s, step, l))
  {
    LockQueue(s, step, l);
    EnqueueInOrder(s, step.task);
    KeptInOrder(s, l);
  }

  lemma KeptInOrder(s: State, l: Limits)
    requires InOrder(s)
    ensures Within(s.taken + Kept(s.queue, s.now, l), s.entered)
  {
    KeptWithin(s.taken, s.queue, s.now, l);
    WithinTransitive(s.taken + Kept(s.queue, s.now, l), s.taken + s.queue, s.entered);
  }

  lemma StepInOrder(s: State, step: Step, l: Limits)
    requires InOrder(s) && Enabled(s, step, l)
    ensures InOrder(Take(s, step, l))
  {
    if !TouchesQueue(step) {
      OtherOrder(s, step, l);
    } else if step.Collect? {
      PurgeInOrder(s, step.th, l);
    } else if step.Pop? {
      PopInOrder(s, step.n, l);
    } else {
      LockInOrder(s, step, l);
    }
  }

  lemma EnqueueInOrder(s: State, t: Task)
    requires InOrder(s)
    ensures Within(s.taken + (s.queue + [t]), s.entered + [t])
  {
    WithinBoth(s.taken + s.queue, s.entered, t);
    assert s.taken + (s.queue + [t]) == (s.taken + s.queue) + [t];
  }

  /** Workers take tasks in the order in which they were enqueued; expiry only leaves some out. The queue
      holds the rest in the same order, and never more than `depth`. */
  lemma {:induction false} FirstInFirstOut(trace: seq<State>, steps: seq<Step>, l: Limits, workers: nat, i: nat)
    requires Run(trace, steps, l, workers) && i < |trace|
    ensures Within(trace[i].taken + trace[i].queue, trace[i].entered)
    ensures |trace[i].queue| <= l.depth
  {
    RunKeepsShape(trace, steps, l, workers, i);
    if i > 0 {
      FirstInFirstOut(trace, steps, l, workers, i - 1);
      StepInOrder(trace[i - 1], steps[i - 1], l);
    }
  }
}
