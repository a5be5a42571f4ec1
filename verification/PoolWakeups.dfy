/** No wakeup is lost or wasted on the condition variable that submitters and workers share. */
module PoolWakeups {
  import opened Wrappers
  import opened WorkQueue
  import opened PoolSteps
  import opened PoolShape

  predicate IsNotified(s: State, th: Thread) {
    th.Worker? && At(s, th, Notified)
  }

  function NotifiedWorkers(s: State): set<Thread> {
    set th | th in s.threads && IsNotified(s, th)
  }

  /** A sleeping submitter has every reason to sleep; a sleeping worker leaves no task unattended: for each
      queued task some worker has been woken that has not resumed yet. */
  ghost predicate Sleepers(s: State, l: Limits) {
    && (forall t :: At(s, Submitter(t), Asleep) ==>
          Full(s, l) && !s.closed && !s.threads[Submitter(t)].timedOut)
    && (forall n: nat :: At(s, Worker(n), Asleep) ==> !s.closed && |s.queue| <= |NotifiedWorkers(s)|)
  }

  ghost predicate Attentive(s: State, l: Limits) {
    Sleepers(s, l) && TimersOk(s)
  }

  /** A timer is armed by waiting only. */
  predicate TimerOk(l: Local) {
    && (l.timedOut ==> l.armed)
    && (l.pc in {Start, Collecting, Locking} ==> !l.armed)
    && (l.pc in {Waiting, Asleep, Notified} ==> l.armed)
  }

  lemma {:induction false} SplitLengths(q: seq<Task>, now: int, l: Limits)
    ensures |Kept(q, now, l)| + |Dead(q, now, l)| == |q|
    ensures Dead(q, now, l) == [] ==> Kept(q, now, l) == q
  {
    if q != [] {
      SplitLengths(q[..|q| - 1], now, l);
    }
  }

  ghost predicate NobodySleeps(s: State) {
    forall th :: th in s.threads ==> s.threads[th].pc != Asleep
  }

  ghost predicate TimersOk(s: State) {
    forall t :: Submitter(t) in s.threads ==> TimerOk(s.threads[Submitter(t)])
  }

  /** Steps that move only threads outside the condition variable and leave the queue alone. */
  predicate Aside(step: Step) {
    step.Tick? || step.Arrive? || step.Check? || step.ReplyDead? || step.Expire? || step.Shed? || step.Handle?
    || step.Leave? || step.SweepStop? || step.CloseStop? || step.Join?
  }

  /** Moving a thread that is neither asleep nor woken to where it is neither. */
  lemma MoveAside(s: State, s': State, th: Thread, here: Local, l: Limits)
    requires Attentive(s, l) && s'.queue == s.queue && s'.closed == s.closed
    requires s'.threads == s.threads[th := here] && here.pc !in {Asleep, Notified}
    requires th in s.threads ==> s.threads[th].pc !in {Asleep, Notified}
    requires th.Submitter? ==> TimerOk(here)
    ensures Attentive(s', l)
  {
    assert NotifiedWorkers(s') == NotifiedWorkers(s);
  }

  lemma AsideAttentive(s: State, step: Step, l: Limits, workers: nat)
    requires Shape(s, l, workers) && Attentive(s, l) && Enabled(s, step, l) && Aside(step)
    ensures Attentive(Take(s, step, l), l)
  {
    var s' := Take(s, step, l);
    if step.Tick? || step.ReplyDead? || step.CloseStop? {
      assert NotifiedWorkers(s') == NotifiedWorkers(s);
    } else {
      var th := if step.Handle? || step.Leave? then Worker(step.n) else if step.SweepStop? then Sweeper
        else if step.Join? then Closer else Submitter(step.task);
      MoveAside(s, s', th, s'.threads[th], l);
    }
  }

  lemma BroadcastAttentive(s: State, s': State, l: Limits)
    requires TimersOk(s) && s'.threads == Broadcast(s).threads
    ensures NobodySleeps(s') && TimersOk(s') && Attentive(s', l)
  {}

  /** Moving `th` where it does not sleep keeps everybody awake. */
  lemma AwakeAttentive(s: State, s': State, th: Thread, pc: Pc, l: Limits)
    requires NobodySleeps(s) && TimersOk(s) && th in s.threads && pc != Asleep
    requires s'.threads == s.threads[th := s.threads[th].(pc := pc)]
    requires th.Submitter? ==> TimerOk(s'.threads[th])
    ensures Attentive(s', l)
  {}

  /** While the queue has room, no submitter sleeps, so a signal can only reach a worker. */
  lemma SignalReachesWorkers(s: State, who: Option<Thread>, l: Limits, workers: nat)
    requires Shape(s, l, workers) && Attentive(s, l) && MaySignal(s, who) && !Full(s, l)
    ensures who.Some? ==> who.value.Worker?
    ensures who.None? ==> NobodySleeps(s)
    ensures who.Some? ==> |NotifiedWorkers(Signal(s, who))| == |NotifiedWorkers(s)| + 1
  {
    if who.Some? {
      assert ThreadOk(s, who.value);
      assert NotifiedWorkers(Signal(s, who)) == NotifiedWorkers(s) + {who.value};
      assert who.value !in NotifiedWorkers(s);
    }
  }

  /** One more task, one more worker woken: if any worker sleeps on, the books still balance. */
  lemma EnqueueAttentive(s: State, t: Task, who: Option<Thread>, l: Limits, workers: nat)
    requires Shape(s, l, workers) && Attentive(s, l) && MaySignal(s, who) && !Full(s, l) && !s.closed
    requires Submitter(t) in s.threads && s.threads[Submitter(t)].pc != Asleep
    ensures Attentive(Enqueue(s, t, who), l)
  {
    SignalReachesWorkers(s, who, l, workers);
    var signalled, s' := Signal(s, who), Enqueue(s, t, who);
    assert NotifiedWorkers(s') == NotifiedWorkers(signalled);
    assert |s'.queue| == |s.queue| + 1;
    forall n: nat | At(s', Worker(n), Asleep) ensures |s'.queue| <= |NotifiedWorkers(s')| {
      assert At(s, Worker(n), Asleep);
    }
    forall u | At(s', Submitter(u), Asleep) ensures false {
      assert At(s, Submitter(u), Asleep);
    }
  }

  lemma DozeAttentive(s: State, t: Task, l: Limits)
    requires Sleepers(s, l) && Full(s, l) && !s.closed
    requires forall u :: u != t && Submitter(u) in s.threads ==> TimerOk(s.threads[Submitter(u)])
    requires Submitter(t) in s.threads && Submitter(t) !in s.dead
    requires s.threads[Submitter(t)].pc != Asleep && s.threads[Submitter(t)].armed && !s.threads[Submitter(t)].timedOut
    ensures Attentive(Doze(s, t, l), l)
  {
    var s' := Doze(s, t, l);
    SplitLengths(s.queue, s.now, l);
    if Dead(s.queue, s.now, l) == [] {
      assert NotifiedWorkers(s') == NotifiedWorkers(s);
    }
  }

  lemma LockAttentive(s: State, step: Step, l: Limits, workers: nat)
    requires Shape(s, l, workers) && Attentive(s, l) && Enabled(s, step, l) && (step.Lock? || step.Rewait?)
    ensures Attentive(Take(s, step, l), l)
  {
    var me := Submitter(step.task);
    if !s.closed && !Full(s, l) {
      EnqueueAttentive(s, step.task, step.who, l, workers);
    } else if step.Lock? && !s.closed && l.wait && !Late(step.task, s.now, l) {
      var armed := Arm(s, step.task);
      assert NotifiedWorkers(armed) == NotifiedWorkers(s);
      DozeAttentive(armed, step.task, l);
    } else if step.Rewait? && !s.closed && !s.threads[me].timedOut {
      DozeAttentive(s, step.task, l);
    } else {
      TurnedAwayAttentive(s, step, l);
    }
  }

  /** A submitter that goes on to answer its own task, as expired or over the limit. */
  lemma TurnedAwayAttentive(s: State, step: Step, l: Limits)
    requires Attentive(s, l) && Enabled(s, step, l) && (step.Lock? || step.Rewait?) && (s.closed || Full(s, l))
    requires step.Lock? ==> s.closed || !l.wait || Late(step.task, s.now, l)
    requires step.Rewait? ==> s.closed || s.threads[Submitter(step.task)].timedOut
    ensures Attentive(Take(s, step, l), l)
  {
    assert NotifiedWorkers(Take(s, step, l)) == NotifiedWorkers(s);
  }

  lemma TakeHeadAttentive(p: State, n: nat, l: Limits)
    requires TimersOk(p) && p.queue != [] && Worker(n) in p.threads
    ensures Attentive(TakeHead(p, n), l)
  {
    BroadcastAttentive(p, Broadcast(p), l);
    AwakeAttentive(Broadcast(p), TakeHead(p, n), Worker(n), Handling, l);
  }

  lemma PurgeAttentive(s: State, th: Thread, l: Limits)
    requires Attentive(s, l)
    ensures TimersOk(Purge(s, th, l)) && Purge(s, th, l).threads.Keys == s.threads.Keys
    ensures if Dead(s.queue, s.now, l) == [] then Purge(s, th, l) == s else NobodySleeps(Purge(s, th, l))
  {
    SplitLengths(s.queue, s.now, l);
  }

  lemma PopAttentive(s: State, n: nat, l: Limits, workers: nat)
    requires l.depth >= 1 && Attentive(s, l) && Enabled(s, Pop(n), l)
    ensures Attentive(Take(s, Pop(n), l), l)
  {
    var me := Worker(n);
    var p := Purge(s, me, l);
    PurgeAttentive(s, me, l);
    if p.queue != [] {
      TakeHeadAttentive(p, n, l);
    } else {
      EmptyPopAttentive(s, n, l);
    }
  }

  lemma EmptyPopAttentive(s: State, n: nat, l: Limits)
    requires l.depth >= 1 && Attentive(s, l) && Enabled(s, Pop(n), l) && Purge(s, Worker(n), l).queue == []
    ensures Attentive(Take(s, Pop(n), l), l)
  {
    var me := Worker(n);
    var p := Purge(s, me, l);
    PurgeAttentive(s, me, l);
    if Dead(s.queue, s.now, l) != [] {
      var pc := if s.closed then Leaving else Popping;
      AwakeAttentive(p, Move(p, me, pc), me, pc, l);
    } else {
      var pc := if s.closed then Leaving else Asleep;
      IdleAttentive(s, Move(s, me, pc), me, pc, l);
    }
  }

  /** A worker that finds nothing to do. */
  lemma IdleAttentive(s: State, s': State, th: Thread, pc: Pc, l: Limits)
    requires l.depth >= 1 && Attentive(s, l) && s.queue == [] && th.Worker? && th in s.threads
    requires pc == (if s.closed then Leaving else Asleep)
    requires s'.threads == s.threads[th := s.threads[th].(pc := pc)] && s'.queue == s.queue && s'.closed == s.closed
    ensures Attentive(s', l)
  {
    forall k: nat | At(s', Worker(k), Asleep) ensures !s.closed {
      assert Worker(k) != th ==> At(s, Worker(k), Asleep);
    }
    forall t | At(s', Submitter(t), Asleep) ensures false {
      assert At(s, Submitter(t), Asleep);
    }
  }

  lemma CollectAttentive(s: State, th: Thread, l: Limits)
    requires Attentive(s, l) && Enabled(s, Collect(th), l)
    ensures Attentive(Take(s, Collect(th), l), l)
  {
    var p, s' := Purge(s, th, l), Take(s, Collect(th), l);
    SplitLengths(s.queue, s.now, l);
    if Dead(s.queue, s.now, l) != [] {
      BroadcastAttentive(s, p, l);
      AwakeAttentive(p, s', th, if th.Sweeper? then Sweeping else Locking, l);
    } else {
      MoveAside(s, s', th, s'.threads[th], l);
    }
  }

  lemma WakeAllAttentive(s: State, step: Step, l: Limits)
    requires Attentive(s, l) && Enabled(s, step, l) && (step.Fire? || step.CloseLock?)
    ensures Attentive(Take(s, step, l), l)
  {
    BroadcastAttentive(s, Broadcast(s), l);
  }

  lemma StepKeepsAttention(s: State, step: Step, l: Limits, workers: nat)
    requires l.depth >= 1 && Shape(s, l, workers) && Attentive(s, l) && Enabled(s, step, l)
    ensures Attentive(Take(s, step, l), l)
  {
    if Aside(step) {
      AsideAttentive(s, step, l, workers);
    } else if step.Lock? || step.Rewait? {
      LockAttentive(s, step, l, workers);
    } else if step.Pop? {
      PopAttentive(s, step.n, l, workers);
    } else if step.Collect? {
      CollectAttentive(s, step.th, l);
    } else {
      WakeAllAttentive(s, step, l);
    }
  }

  lemma {:induction false} RunKeepsAttention(trace: seq<State>, steps: seq<Step>, l: Limits, workers: nat, i: nat)
    requires Run(trace, steps, l, workers) && i < |trace|
    ensures Attentive(trace[i], l)
  {
    if i > 0 {
      RunKeepsAttention(trace, steps, l, workers, i - 1);
      RunKeepsShape(trace, steps, l, workers, i - 1);
      StepKeepsAttention(trace[i - 1], steps[i - 1], l, workers);
    }
  }

  // ---------- what follows ----------

  /** A worker that is awake or has been woken, and is not on its way out. */
  ghost predicate SomeWorkerUp(s: State, workers: nat) {
    exists n: nat :: n < workers && Worker(n) in s.threads
      && s.threads[Worker(n)].pc in {Popping, Notified, Handling}
  }

  /** A queued task always has a worker that is awake or woken. */
  lemma QueuedTaskHasWorker(s: State, l: Limits, workers: nat)
    requires Shape(s, l, workers) && Attentive(s, l) && workers > 0 && s.queue != []
    ensures SomeWorkerUp(s, workers)
  {
    assert ThreadOk(s, Worker(0));
    assert Worker(0) in s.threads;
    if s.threads[Worker(0)].pc == Asleep {
      assert At(s, Worker(0), Asleep);
      var th :| th in NotifiedWorkers(s);
      assert th == Worker(th.n);
    }
  }

  /** No wakeup is wasted: every signal of an enqueue reaches a worker, never a submitter. */
  lemma SignalsAreNotWasted(trace: seq<State>, steps: seq<Step>, l: Limits, workers: nat, i: nat)
    requires Run(trace, steps, l, workers) && i < |steps|
    requires (steps[i].Lock? || steps[i].Rewait?) && steps[i].who.Some?
    ensures steps[i].who.value.Worker?
  {
    RunKeepsShape(trace, steps, l, workers, i);
    RunKeepsAttention(trace, steps, l, workers, i);
    SignalReachesWorkers(trace[i], steps[i].who, l, workers);
  }

  /** No wakeup is lost, in any run: a sleeping submitter faces a full, open queue, and a non-empty queue
      has a worker up. */
  lemma NoLostWakeup(trace: seq<State>, steps: seq<Step>, l: Limits, workers: nat, i: nat)
    requires Run(trace, steps, l, workers) && i < |trace| && workers > 0
    ensures forall t :: At(trace[i], Submitter(t), Asleep) ==> |trace[i].queue| == l.depth && !trace[i].closed
    ensures trace[i].queue != [] ==> SomeWorkerUp(trace[i], workers)
  {
    RunKeepsShape(trace, steps, l, workers, i);
    RunKeepsAttention(trace, steps, l, workers, i);
    if trace[i].queue != [] {
      QueuedTaskHasWorker(trace[i], l, workers);
    }
  }
}
