/** What each thread may be doing, hold and owe, in every reachable state of the pool. */
module PoolShape {
  import opened Wrappers
  import opened WorkQueue
  import opened PoolSteps

  predicate Holds(th: Thread, pc: Pc) {
    match th
    case Submitter(_) => pc != Gone
    case Worker(_) => pc == Handling
    case _ => false
  }

  predicate MayBe(th: Thread, pc: Pc) {
    match th
    case Submitter(_) => pc in {Start, Collecting, Locking, Waiting, Asleep, Notified, Expiring, Shedding, Gone}
    case Worker(_) => pc in {Popping, Asleep, Notified, Handling, Leaving, Gone}
    case Sweeper => pc in {Sweeping, Gone}
    case Closer => pc in {Closing, Joining, Gone}
  }

  predicate MayOwe(th: Thread, pc: Pc) {
    match th
    case Submitter(_) => pc in {Locking, Waiting}
    case Worker(_) => pc in {Popping, Handling, Leaving}
    case Sweeper => pc == Sweeping
    case Closer => false
  }

  ghost predicate ThreadOk(s: State, th: Thread) {
    && (th in s.hand <==> th in s.threads && Holds(th, s.threads[th].pc))
    && (th in s.hand && th.Submitter? ==> s.hand[th] == th.task)
    && (th in s.dead ==> th in s.threads && MayOwe(th, s.threads[th].pc) && s.dead[th] != [])
    && (th in s.threads ==> MayBe(th, s.threads[th].pc))
    && (th in s.threads && th.Worker? && s.threads[th].pc in {Leaving, Gone} ==> s.closed && s.queue == [])
    && (th in s.threads && th.Sweeper? && s.threads[th].pc == Gone ==> s.stopped)
    && (th in s.threads && th.Closer? && s.threads[th].pc != Closing ==> s.closed)
  }

  ghost predicate Roster(s: State, l: Limits, workers: nat) {
    && (forall n: nat :: Worker(n) in s.threads <==> n < workers)
    && Sweeper in s.threads && Closer in s.threads
    && |s.queue| <= l.depth
    && (s.closed ==> s.stopped && s.threads[Closer].pc != Closing)
    && (s.threads[Closer].pc == Gone ==>
          forall th :: th in s.threads && (th.Worker? || th.Sweeper?) ==> s.threads[th].pc == Gone)
  }

  ghost predicate Shape(s: State, l: Limits, workers: nat) {
    (forall th :: ThreadOk(s, th)) && Roster(s, l, workers)
  }

  lemma InitialWorker(n: nat, workers: nat)
    ensures Worker(n) in InitialThreads(workers) <==> n < workers
  {
    var pool := set k | 0 <= k < workers :: Worker(k);
    if n < workers {
      var th := Worker(n);
      assert th in pool;
    }
  }

  lemma InitialShape(workers: nat, now: int, l: Limits)
    ensures Shape(Initial(workers, now), l, workers)
  {
    var s := Initial(workers, now);
    forall n: nat ensures Worker(n) in s.threads <==> n < workers {
      InitialWorker(n, workers);
    }
  }

  predicate Quiet(step: Step) {
    !step.Collect? && !step.Lock? && !step.Rewait? && !step.Pop?
  }

  /** The steps that only move their own thread on, or the clock. */
  predicate Solo(step: Step) {
    step.Tick? || step.Check? || step.Leave? || step.SweepStop? || step.Join?
  }

  lemma SoloStepThread(s: State, step: Step, l: Limits, workers: nat, th: Thread)
    requires Shape(s, l, workers) && Enabled(s, step, l) && Solo(step)
    ensures ThreadOk(Take(s, step, l), th)
  {
    assert ThreadOk(s, th);
  }

  lemma AnswerStepThread(s: State, step: Step, l: Limits, workers: nat, th: Thread)
    requires Shape(s, l, workers) && Enabled(s, step, l)
    requires step.ReplyDead? || step.Expire? || step.Shed? || step.Handle?
    ensures ThreadOk(Take(s, step, l), th)
  {
    assert ThreadOk(s, th);
  }

  lemma QuietStepThread(s: State, step: Step, l: Limits, workers: nat, th: Thread)
    requires Shape(s, l, workers) && Enabled(s, step, l) && Quiet(step)
    ensures ThreadOk(Take(s, step, l), th)
  {
    if Solo(step) {
      SoloStepThread(s, step, l, workers, th);
    } else if step.ReplyDead? || step.Expire? || step.Shed? || step.Handle? {
      AnswerStepThread(s, step, l, workers, th);
    } else {
      assert ThreadOk(s, th);
    }
  }

  lemma SoloStepRoster(s: State, step: Step, l: Limits, workers: nat)
    requires Shape(s, l, workers) && Enabled(s, step, l) && Solo(step)
    ensures Roster(Take(s, step, l), l, workers)
  {}

  lemma QuietStepRoster(s: State, step: Step, l: Limits, workers: nat)
    requires Shape(s, l, workers) && Enabled(s, step, l) && Quiet(step)
    ensures Roster(Take(s, step, l), l, workers)
  {
    if Solo(step) {
      SoloStepRoster(s, step, l, workers);
    }
  }

  /** The state `p` right after `th`, which was up and owed nothing, purged the queue. */
  ghost predicate Purged(s: State, p: State, th: Thread) {
    && th in s.threads && p.threads.Keys == s.threads.Keys
    && p.hand == s.hand && p.closed == s.closed && p.stopped == s.stopped
    && |p.queue| <= |s.queue| && p.threads[th] == s.threads[th]
    && (forall other :: other in s.threads ==>
          p.threads[other] == s.threads[other] || p.threads[other] == Woken(s.threads[other]))
    && (forall other :: other != th ==> (other in p.dead <==> other in s.dead))
    && (forall other :: other != th && other in s.dead ==> p.dead[other] == s.dead[other])
    && (th in p.dead ==> p.dead[th] != [])
  }

  lemma PurgeIsPurged(s: State, th: Thread, l: Limits)
    requires th in s.threads && th !in s.dead && s.threads[th].pc != Asleep
    ensures Purged(s, Purge(s, th, l), th)
  {}

  lemma PurgedOther(s: State, p: State, th: Thread, other: Thread)
    requires Purged(s, p, th) && ThreadOk(s, other) && other != th
    ensures ThreadOk(p, other)
  {}

  lemma PurgedRoster(s: State, p: State, th: Thread, l: Limits, workers: nat)
    requires Purged(s, p, th) && Roster(s, l, workers) && !th.Closer?
    ensures Roster(p, l, workers)
  {}

  /** Everything about `th` but where it is. */
  ghost predicate SelfOk(p: State, th: Thread, pc: Pc) {
    && th in p.threads && MayBe(th, pc)
    && (th in p.hand <==> Holds(th, pc)) && (th in p.hand && th.Submitter? ==> p.hand[th] == th.task)
    && (th in p.dead ==> MayOwe(th, pc) && p.dead[th] != [])
    && (th.Worker? && pc in {Leaving, Gone} ==> p.closed && p.queue == [])
    && !th.Closer? && pc != Gone
  }

  lemma MoveShape(p: State, th: Thread, pc: Pc, l: Limits, workers: nat)
    requires (forall other :: other != th ==> ThreadOk(p, other)) && Roster(p, l, workers) && SelfOk(p, th, pc)
    requires p.threads[Closer].pc == Gone && (th.Worker? || th.Sweeper?) ==> pc == Gone
    ensures Shape(Move(p, th, pc), l, workers)
  {
    var s' := Move(p, th, pc);
    forall other ensures ThreadOk(s', other) {
      assert other != th ==> ThreadOk(p, other);
    }
  }

  lemma EnqueueShape(s: State, t: Task, who: Option<Thread>, l: Limits, workers: nat)
    requires Shape(s, l, workers) && MaySignal(s, who) && |s.queue| < l.depth && !s.closed
    requires Submitter(t) in s.threads && Submitter(t) in s.hand && Submitter(t) !in s.dead
    requires s.threads[Submitter(t)].pc != Asleep
    ensures Shape(Enqueue(s, t, who), l, workers)
  {
    var s' := Enqueue(s, t, who);
    forall th ensures ThreadOk(s', th) {
      assert ThreadOk(s, th);
    }
  }

  lemma DozeShape(s: State, t: Task, l: Limits, workers: nat)
    requires Shape(s, l, workers)
    requires Submitter(t) in s.threads && Submitter(t) in s.hand && Submitter(t) !in s.dead
    requires s.threads[Submitter(t)].pc != Asleep
    ensures Shape(Doze(s, t, l), l, workers)
  {
    var me := Submitter(t);
    var p := Purge(s, me, l);
    PurgeIsPurged(s, me, l);
    PurgedRoster(s, p, me, l, workers);
    assert ThreadOk(s, me);
    forall other | other != me ensures ThreadOk(p, other) {
      PurgedOther(s, p, me, other);
    }
    MoveShape(p, me, if me in p.dead then Waiting else Asleep, l, workers);
  }

  lemma CollectShape(s: State, th: Thread, l: Limits, workers: nat)
    requires Shape(s, l, workers) && Enabled(s, Collect(th), l)
    ensures Shape(Take(s, Collect(th), l), l, workers)
  {
    var p := Purge(s, th, l);
    assert ThreadOk(s, th);
    PurgeIsPurged(s, th, l);
    PurgedRoster(s, p, th, l, workers);
    forall other | other != th ensures ThreadOk(p, other) {
      PurgedOther(s, p, th, other);
    }
    MoveShape(p, th, if th.Sweeper? then Sweeping else Locking, l, workers);
  }

  lemma TakeHeadShape(p: State, n: nat, l: Limits, workers: nat)
    requires (forall other :: other != Worker(n) ==> ThreadOk(p, other)) && Roster(p, l, workers)
    requires p.queue != [] && Worker(n) in p.threads
    requires Worker(n) in p.dead ==> p.dead[Worker(n)] != []
    requires p.threads[Worker(n)].pc != Gone
    ensures Shape(TakeHead(p, n), l, workers)
  {
    var s' := TakeHead(p, n);
    forall th ensures ThreadOk(s', th) {
      assert th != Worker(n) ==> ThreadOk(p, th);
    }
  }

  lemma PopShape(s: State, n: nat, l: Limits, workers: nat)
    requires Shape(s, l, workers) && Enabled(s, Pop(n), l)
    ensures Shape(Take(s, Pop(n), l), l, workers)
  {
    var me := Worker(n);
    var p := Purge(s, me, l);
    assert ThreadOk(s, me);
    PurgeIsPurged(s, me, l);
    PurgedRoster(s, p, me, l, workers);
    forall other | other != me ensures ThreadOk(p, other) {
      PurgedOther(s, p, me, other);
    }
    if p.queue != [] {
      TakeHeadShape(p, n, l, workers);
    } else if s.closed {
      MoveShape(p, me, Leaving, l, workers);
    } else {
      MoveShape(p, me, if me in p.dead then Popping else Asleep, l, workers);
    }
  }

  lemma LockShape(s: State, step: Step, l: Limits, workers: nat)
    requires Shape(s, l, workers) && Enabled(s, step, l) && (step.Lock? || step.Rewait?)
    ensures Shape(Take(s, step, l), l, workers)
  {
    var me := Submitter(step.task);
    assert ThreadOk(s, me);
    if !s.closed && !Full(s, l) {
      EnqueueShape(s, step.task, step.who, l, workers);
    } else if step.Lock? && !s.closed && l.wait && !Late(step.task, s.now, l) {
      var armed := Arm(s, step.task);
      forall th ensures ThreadOk(armed, th) {
        assert ThreadOk(s, th);
      }
      DozeShape(armed, step.task, l, workers);
    } else if step.Rewait? && !s.closed && !s.threads[me].timedOut {
      DozeShape(s, step.task, l, workers);
    } else {
      MoveShape(s, me, if step.Lock? && !s.closed && !l.wait then Shedding else Expiring, l, workers);
    }
  }

  lemma StepKeepsShape(s: State, step: Step, l: Limits, workers: nat)
    requires Shape(s, l, workers) && Enabled(s, step, l)
    ensures Shape(Take(s, step, l), l, workers)
  {
    match step
    case Collect(th) => CollectShape(s, th, l, workers);
    case Lock(_, _) => LockShape(s, step, l, workers);
    case Rewait(_, _) => LockShape(s, step, l, workers);
    case Pop(n) => PopShape(s, n, l, workers);
    case _ =>
      QuietStepRoster(s, step, l, workers);
      forall th ensures ThreadOk(Take(s, step, l), th) {
        QuietStepThread(s, step, l, workers, th);
      }
  }

  lemma {:induction false} RunKeepsShape(trace: seq<State>, steps: seq<Step>, l: Limits, workers: nat, i: nat)
    requires Run(trace, steps, l, workers) && i < |trace|
    ensures Shape(trace[i], l, workers)
  {
    if i == 0 {
      InitialShape(workers, trace[0].now, l);
    } else {
      RunKeepsShape(trace, steps, l, workers, i - 1);
      StepKeepsShape(trace[i - 1], steps[i - 1], l, workers);
    }
  }
}
