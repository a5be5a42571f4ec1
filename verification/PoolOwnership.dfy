/** Every submitted task is at any moment in exactly one place, and is answered exactly once. */
module PoolOwnership {
  import opened Wrappers
  import opened WorkQueue
  import opened PoolSteps
  import opened PoolShape

  datatype Place = InQueue | InDead(th: Thread) | InHand(th: Thread) | Done

  type Places = map<Task, Place>

  predicate Is(place: Places, t: Task, p: Place) {
    t in place && place[t] == p
  }

  /** The places account for every occurrence of every task, and no list holds a task twice. */
  ghost predicate Owned(s: State, place: Places) {
    && (forall t :: Submitter(t) in s.threads <==> t in place)
    && (forall t :: t in s.queue <==> Is(place, t, InQueue))
    && (forall t, th :: (th in s.dead && t in s.dead[th]) <==> Is(place, t, InDead(th)))
    && (forall t, th :: (th in s.hand && s.hand[th] == t) <==> Is(place, t, InHand(th)))
    && (forall t :: t in s.answered <==> Is(place, t, Done))
    && NoRepeats(s.queue) && NoRepeats(s.answered)
    && (forall th :: th in s.dead ==> NoRepeats(s.dead[th]))
  }

  /** Steps that move no task. */
  ghost predicate SameHoldings(s: State, s': State) {
    && s'.queue == s.queue && s'.dead == s.dead && s'.hand == s.hand && s'.answered == s.answered
    && s'.threads.Keys == s.threads.Keys
  }

  lemma SameHoldingsOwned(s: State, s': State, place: Places)
    requires Owned(s, place) && SameHoldings(s, s')
    ensures Owned(s', place)
  {
    assert forall th :: th in s'.threads <==> th in s.threads.Keys;
  }

  lemma ArriveOwned(s: State, t: Task, l: Limits, place: Places)
    requires Owned(s, place) && Enabled(s, Arrive(t), l) && ThreadOk(s, Submitter(t))
    ensures Owned(Take(s, Arrive(t), l), place[t := InHand(Submitter(t))])
  {
    assert t !in place && !Is(place, t, InQueue) && !Is(place, t, Done);
    var s', place' := Take(s, Arrive(t), l), place[t := InHand(Submitter(t))];
    forall u, x ensures (x in s'.dead && u in s'.dead[x]) <==> Is(place', u, InDead(x)) {
      assert (x in s.dead && u in s.dead[x]) <==> Is(place, u, InDead(x));
    }
    forall u, x ensures (x in s'.hand && s'.hand[x] == u) <==> Is(place', u, InHand(x)) {
      assert (x in s.hand && s.hand[x] == u) <==> Is(place, u, InHand(x));
    }
  }

  function Handed(place: Places, batch: seq<Task>, th: Thread): Places {
    map t | t in place :: if t in batch then InDead(th) else place[t]
  }

  /** Part of the queue becomes the batch of `th`. */
  lemma SplitOwned(s: State, s': State, th: Thread, place: Places, kept: seq<Task>, batch: seq<Task>)
    requires Owned(s, place) && th !in s.dead
    requires forall t :: (t in s.queue <==> t in kept || t in batch) && !(t in kept && t in batch)
    requires NoRepeats(kept) && NoRepeats(batch)
    requires s'.queue == kept && s'.dead == (if batch == [] then s.dead else s.dead[th := batch])
    requires s'.hand == s.hand && s'.answered == s.answered && s'.threads.Keys == s.threads.Keys
    ensures Owned(s', Handed(place, batch, th))
  {
    var place' := Handed(place, batch, th);
    assert forall x :: x in s'.threads <==> x in s.threads.Keys;
    assert forall t :: t in batch ==> Is(place, t, InQueue);
    forall t, x ensures (x in s'.dead && t in s'.dead[x]) <==> Is(place', t, InDead(x)) {
      assert (x in s.dead && t in s.dead[x]) <==> Is(place, t, InDead(x));
    }
    forall t, x ensures (x in s'.hand && s'.hand[x] == t) <==> Is(place', t, InHand(x)) {
      assert (x in s.hand && s.hand[x] == t) <==> Is(place, t, InHand(x));
    }
  }

  lemma PurgeOwned(s: State, th: Thread, l: Limits, place: Places)
    requires Owned(s, place) && th !in s.dead
    ensures Owned(Purge(s, th, l), Handed(place, Dead(s.queue, s.now, l), th))
  {
    SplitNoRepeats(s.queue, s.now, l);
    forall t ensures t in Kept(s.queue, s.now, l) <==> t in s.queue && !Late(t, s.now, l)
             ensures t in Dead(s.queue, s.now, l) <==> t in s.queue && Late(t, s.now, l)
    {
      SplitMembers(s.queue, s.now, l, t);
    }
    var p := Purge(s, th, l);
    assert p.threads.Keys == s.threads.Keys;
    SplitOwned(s, p, th, place, Kept(s.queue, s.now, l), Dead(s.queue, s.now, l));
  }

  lemma EnqueueOwned(s: State, t: Task, who: Option<Thread>, place: Places)
    requires Owned(s, place) && MaySignal(s, who) && Submitter(t) in s.threads
    requires Submitter(t) in s.hand && s.hand[Submitter(t)] == t
    ensures Owned(Enqueue(s, t, who), place[t := InQueue])
  {
    var s', place' := Enqueue(s, t, who), place[t := InQueue];
    assert Is(place, t, InHand(Submitter(t)));
    assert t !in s.queue;
    assert forall x :: x in s'.threads <==> x in s.threads;
    forall u, x ensures (x in s'.dead && u in s'.dead[x]) <==> Is(place', u, InDead(x)) {
      assert (x in s.dead && u in s.dead[x]) <==> Is(place, u, InDead(x));
    }
    forall u, x ensures (x in s'.hand && s'.hand[x] == u) <==> Is(place', u, InHand(x)) {
      assert (x in s.hand && s.hand[x] == u) <==> Is(place, u, InHand(x));
    }
  }

  lemma TakeHeadOwned(s: State, n: nat, place: Places)
    requires Owned(s, place) && s.queue != [] && Worker(n) in s.threads && Worker(n) !in s.hand
    ensures Owned(TakeHead(s, n), place[s.queue[0] := InHand(Worker(n))])
  {
    var t := s.queue[0];
    var s', place' := TakeHead(s, n), place[t := InHand(Worker(n))];
    assert Is(place, t, InQueue);
    assert s.queue == [t] + s'.queue;
    assert t !in s'.queue;
    assert forall x :: x in s'.threads <==> x in s.threads;
    forall u ensures u in s'.queue <==> Is(place', u, InQueue) {
      assert u in s.queue <==> u == t || u in s'.queue;
    }
    forall u, x ensures (x in s'.dead && u in s'.dead[x]) <==> Is(place', u, InDead(x)) {
      assert (x in s.dead && u in s.dead[x]) <==> Is(place, u, InDead(x));
    }
    forall u, x ensures (x in s'.hand && s'.hand[x] == u) <==> Is(place', u, InHand(x)) {
      assert (x in s.hand && s.hand[x] == u) <==> Is(place, u, InHand(x));
    }
  }

  lemma AnswerHandOwned(s: State, s': State, th: Thread, t: Task, place: Places)
    requires Owned(s, place) && th in s.hand && s.hand[th] == t
    requires s'.threads.Keys == s.threads.Keys && s'.queue == s.queue && s'.dead == s.dead
    requires s'.hand == s.hand - {th} && s'.answered == s.answered + [t]
    ensures Owned(s', place[t := Done])
  {
    var place' := place[t := Done];
    assert Is(place, t, InHand(th));
    assert t !in s.answered;
    assert forall x :: x in s'.threads <==> x in s.threads.Keys;
    forall u, x ensures (x in s'.dead && u in s'.dead[x]) <==> Is(place', u, InDead(x)) {
      assert (x in s.dead && u in s.dead[x]) <==> Is(place, u, InDead(x));
    }
    forall u, x ensures (x in s'.hand && s'.hand[x] == u) <==> Is(place', u, InHand(x)) {
      assert (x in s.hand && s.hand[x] == u) <==> Is(place, u, InHand(x));
    }
  }

  lemma AnswerDeadOwned(s: State, th: Thread, place: Places)
    requires Owned(s, place) && th in s.dead && s.dead[th] != []
    ensures Owned(AnswerDead(s, th), place[s.dead[th][0] := Done])
  {
    var t := s.dead[th][0];
    var s', place' := AnswerDead(s, th), place[t := Done];
    var rest := s.dead[th][1..];
    assert s.dead[th] == [t] + rest && t !in rest;
    assert Is(place, t, InDead(th));
    assert t !in s.answered;
    forall u, x ensures (x in s'.dead && u in s'.dead[x]) <==> Is(place', u, InDead(x)) {
      assert (x in s.dead && u in s.dead[x]) <==> Is(place, u, InDead(x));
    }
    forall u, x ensures (x in s'.hand && s'.hand[x] == u) <==> Is(place', u, InHand(x)) {
      assert (x in s.hand && s.hand[x] == u) <==> Is(place, u, InHand(x));
    }
  }

  // ---------- whole steps ----------

  lemma DozeOwned(s: State, t: Task, l: Limits, place: Places)
    requires Owned(s, place) && Submitter(t) in s.threads && Submitter(t) !in s.dead
    ensures Owned(Doze(s, t, l), Handed(place, Dead(s.queue, s.now, l), Submitter(t)))
  {
    PurgeOwned(s, Submitter(t), l, place);
    SameHoldingsOwned(Purge(s, Submitter(t), l), Doze(s, t, l), Handed(place, Dead(s.queue, s.now, l), Submitter(t)));
  }

  lemma LockOwned(s: State, step: Step, l: Limits, workers: nat, place: Places) returns (place': Places)
    requires Shape(s, l, workers) && Owned(s, place) && Enabled(s, step, l) && (step.Lock? || step.Rewait?)
    ensures Owned(Take(s, step, l), place')
  {
    var t := step.task;
    var me := Submitter(t);
    var s' := Take(s, step, l);
    assert ThreadOk(s, me);
    if !s.closed && !Full(s, l) {
      place' := place[t := InQueue];
      EnqueueOwned(s, t, step.who, place);
    } else if (step.Lock? && !s.closed && l.wait && !Late(t, s.now, l))
           || (step.Rewait? && !s.closed && !s.threads[me].timedOut) {
      var armed := if step.Lock? then Arm(s, t) else s;
      SameHoldingsOwned(s, armed, place);
      place' := Handed(place, Dead(armed.queue, armed.now, l), me);
      DozeOwned(armed, t, l, place);
    } else {
      place' := place;
      SameHoldingsOwned(s, s', place);
    }
  }

  lemma PopOwned(s: State, n: nat, l: Limits, workers: nat, place: Places) returns (place': Places)
    requires Shape(s, l, workers) && Owned(s, place) && Enabled(s, Pop(n), l)
    ensures Owned(Take(s, Pop(n), l), place')
  {
    var me := Worker(n);
    var p := Purge(s, me, l);
    assert ThreadOk(s, me);
    PurgeOwned(s, me, l, place);
    PurgeIsPurged(s, me, l);
    place' := Handed(place, Dead(s.queue, s.now, l), me);
    if p.queue != [] {
      TakeHeadOwned(p, n, place');
      place' := place'[p.queue[0] := InHand(me)];
    } else {
      EmptyPopHoldings(s, p, n, l);
      SameHoldingsOwned(p, Take(s, Pop(n), l), place');
    }
  }

  lemma EmptyPopHoldings(s: State, p: State, n: nat, l: Limits)
    requires Enabled(s, Pop(n), l) && p == Purge(s, Worker(n), l) && p.queue == [] && p.threads.Keys == s.threads.Keys
    ensures SameHoldings(p, Take(s, Pop(n), l))
  {}

  predicate MovesNoTask(step: Step) {
    step.Tick? || step.Check? || step.Fire? || step.Leave? || step.SweepStop? || step.CloseStop? || step.CloseLock?
    || step.Join?
  }

  lemma QuietStepHoldings(s: State, step: Step, l: Limits)
    requires Enabled(s, step, l) && MovesNoTask(step)
    ensures SameHoldings(s, Take(s, step, l))
  {}

  lemma AnswerStepOwned(s: State, step: Step, l: Limits, workers: nat, place: Places) returns (place': Places)
    requires Shape(s, l, workers) && Owned(s, place) && Enabled(s, step, l)
    requires step.Expire? || step.Shed? || step.Handle?
    ensures Owned(Take(s, step, l), place')
  {
    var th := if step.Handle? then Worker(step.n) else Submitter(step.task);
    assert ThreadOk(s, th);
    AnswerHandOwned(s, Take(s, step, l), th, s.hand[th], place);
    place' := place[s.hand[th] := Done];
  }

  lemma CollectOwned(s: State, th: Thread, l: Limits, place: Places)
    requires Owned(s, place) && Enabled(s, Collect(th), l)
    ensures Owned(Take(s, Collect(th), l), Handed(place, Dead(s.queue, s.now, l), th))
  {
    PurgeOwned(s, th, l, place);
    var p := Purge(s, th, l);
    assert th in p.threads;
    SameHoldingsOwned(p, Move(p, th, if th.Sweeper? then Sweeping else Locking), Handed(place, Dead(s.queue, s.now, l), th));
  }

  lemma StepOwned(s: State, step: Step, l: Limits, workers: nat, place: Places) returns (place': Places)
    requires Shape(s, l, workers) && Owned(s, place) && Enabled(s, step, l)
    ensures Owned(Take(s, step, l), place')
  {
    if MovesNoTask(step) {
      QuietStepHoldings(s, step, l);
      SameHoldingsOwned(s, Take(s, step, l), place);
      return place;
    }
    match step
    case Arrive(t) =>
      assert ThreadOk(s, Submitter(t));
      ArriveOwned(s, t, l, place);
      place' := place[t := InHand(Submitter(t))];
    case Collect(th) =>
      CollectOwned(s, th, l, place);
      place' := Handed(place, Dead(s.queue, s.now, l), th);
    case ReplyDead(th) =>
      AnswerDeadOwned(s, th, place);
      place' := place[s.dead[th][0] := Done];
    case Pop(n) => place' := PopOwned(s, n, l, workers, place);
    case _ =>
      if step.Lock? || step.Rewait? {
        place' := LockOwned(s, step, l, workers, place);
      } else {
        place' := AnswerStepOwned(s, step, l, workers, place);
      }
  }

  lemma {:induction false} RunOwned(trace: seq<State>, steps: seq<Step>, l: Limits, workers: nat, i: nat)
    returns (place: Places)
    requires Run(trace, steps, l, workers) && i < |trace|
    ensures Owned(trace[i], place)
  {
    if i == 0 {
      place := map[];
    } else {
      var before := RunOwned(trace, steps, l, workers, i - 1);
      RunKeepsShape(trace, steps, l, workers, i - 1);
      place := StepOwned(trace[i - 1], steps[i - 1], l, workers, before);
    }
  }
}
