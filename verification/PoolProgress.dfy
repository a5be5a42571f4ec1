/** The pool does not get stuck and does not run in circles: as long as a task is unanswered some thread can
    move, and without new submissions only finitely many moves are left. */
module PoolProgress {
  import opened Wrappers
  import opened WorkQueue
  import opened PoolSteps
  import opened PoolShape
  import opened PoolWakeups
  import opened PoolRuns

  /** The clock, new submissions, idle ticks of the sweeper, the firing of timers and the decision to call
      Close are not up to the pool. */
  predicate IsMove(step: Step) {
    !step.Tick? && !step.Arrive? && step != Collect(Sweeper) && !step.Fire? && !step.CloseStop?
  }

  ghost predicate CanMove(s: State, l: Limits) {
    exists step :: IsMove(step) && Enabled(s, step, l)
  }

  // ---------- never stuck ----------

  /** A worker that is up can move. */
  lemma WorkerMoves(s: State, n: nat, l: Limits)
    requires ThreadOk(s, Worker(n)) && Worker(n) in s.threads
    requires s.threads[Worker(n)].pc in {Popping, Notified, Handling, Leaving}
    ensures CanMove(s, l)
  {
    var th := Worker(n);
    if th in s.dead {
      assert IsMove(ReplyDead(th)) && Enabled(s, ReplyDead(th), l);
    } else if s.threads[th].pc == Handling {
      assert IsMove(Handle(n)) && Enabled(s, Handle(n), l);
    } else if s.threads[th].pc == Leaving {
      assert IsMove(Leave(n)) && Enabled(s, Leave(n), l);
    } else {
      assert IsMove(Pop(n)) && Enabled(s, Pop(n), l);
    }
  }

  lemma SomeSignal(s: State) returns (who: Option<Thread>)
    ensures MaySignal(s, who)
  {
    if exists th :: At(s, th, Asleep) {
      var th :| At(s, th, Asleep);
      who := Some(th);
    } else {
      who := None;
      forall th | th in s.threads ensures s.threads[th].pc != Asleep {
        assert !At(s, th, Asleep);
      }
    }
  }

  /** A submitter with its task in hand can move, or sleeps before a full queue. */
  lemma SubmitterMoves(s: State, t: Task, l: Limits)
    requires ThreadOk(s, Submitter(t)) && Submitter(t) in s.hand && !At(s, Submitter(t), Asleep)
    ensures CanMove(s, l)
  {
    var th := Submitter(t);
    var who := SomeSignal(s);
    var pick := if s.closed || Full(s, l) then None else who;
    if th in s.dead {
      assert IsMove(ReplyDead(th)) && Enabled(s, ReplyDead(th), l);
    } else {
      var pc := s.threads[th].pc;
      var step := if pc == Start then Check(t) else if pc == Collecting then Collect(th)
        else if pc == Locking then Lock(t, pick) else if pc == Expiring then Expire(t)
        else if pc == Shedding then Shed(t) else Rewait(t, pick);
      assert IsMove(step) && Enabled(s, step, l);
    }
  }

  lemma QueuedMoves(s: State, l: Limits, workers: nat)
    requires Shape(s, l, workers) && Attentive(s, l) && workers > 0 && s.queue != []
    ensures CanMove(s, l)
  {
    QueuedTaskHasWorker(s, l, workers);
    var n: nat :| n < workers && Worker(n) in s.threads && s.threads[Worker(n)].pc in {Popping, Notified, Handling};
    assert ThreadOk(s, Worker(n));
    WorkerMoves(s, n, l);
  }

  /** In every reachable state with an unanswered task some thread can move, without the help of a timer. */
  lemma UnansweredMeansMovable(trace: seq<State>, steps: seq<Step>, l: Limits, workers: nat, i: nat, t: Task)
    requires Run(trace, steps, l, workers) && i < |trace| && workers > 0
    requires Submitted(trace[i], t) && t !in trace[i].answered
    ensures CanMove(trace[i], l)
  {
    var s := trace[i];
    RunKeepsShape(trace, steps, l, workers, i);
    RunKeepsAttention(trace, steps, l, workers, i);
    NoTaskIsLost(trace, steps, l, workers, i, t);
    if s.queue != [] {
      QueuedMoves(s, l, workers);
    } else if exists th :: th in s.dead && t in s.dead[th] {
      var th :| th in s.dead && t in s.dead[th];
      assert IsMove(ReplyDead(th)) && Enabled(s, ReplyDead(th), l);
    } else {
      var th :| th in s.hand && s.hand[th] == t;
      assert ThreadOk(s, th);
      if th.Worker? {
        WorkerMoves(s, th.n, l);
      } else {
        assert At(s, th, Asleep) ==> Full(s, l);
        SubmitterMoves(s, t, l);
      }
    }
  }

  /** Close does not hang: while it waits, somebody can move. */
  lemma ClosingMeansMovable(trace: seq<State>, steps: seq<Step>, l: Limits, workers: nat, i: nat)
    requires Run(trace, steps, l, workers) && i < |trace| && At(trace[i], Closer, Joining)
    ensures CanMove(trace[i], l)
  {
    var s := trace[i];
    RunKeepsShape(trace, steps, l, workers, i);
    RunKeepsAttention(trace, steps, l, workers, i);
    assert ThreadOk(s, Closer) && ThreadOk(s, Sweeper);
    if s.threads[Sweeper].pc != Gone {
      if Sweeper in s.dead {
        assert IsMove(ReplyDead(Sweeper)) && Enabled(s, ReplyDead(Sweeper), l);
      } else {
        assert IsMove(SweepStop) && Enabled(s, SweepStop, l);
      }
    } else if exists n: nat :: Worker(n) in s.threads && s.threads[Worker(n)].pc != Gone {
      var n: nat :| Worker(n) in s.threads && s.threads[Worker(n)].pc != Gone;
      assert ThreadOk(s, Worker(n)) && !At(s, Worker(n), Asleep);
      WorkerMoves(s, n, l);
    } else {
      forall th | th in s.threads && (th.Worker? || th.Sweeper?) ensures s.threads[th].pc == Gone {
        assert th.Worker? ==> th == Worker(th.n);
      }
      assert IsMove(Join) && Enabled(s, Join, l);
    }
  }
}
