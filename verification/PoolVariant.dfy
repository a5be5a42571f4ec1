/** Without new submissions the pool comes to rest: a number that no step raises bounds how many moves the
    threads can still make, whatever the scheduling. */
module PoolVariant {
  import opened Wrappers
  import opened WorkQueue
  import opened PoolSteps
  import opened PoolShape
  import opened PoolOwnership
  import opened PoolWakeups
  import opened PoolProgress

  // ---------- sums over threads ----------

  ghost function Sum(m: map<Thread, nat>): nat {
    if m == map[] then 0
    else
      var k :| k in m;
      m[k] + Sum(m - {k})
  }

  lemma {:induction false} SumTakeOut(m: map<Thread, nat>, k: Thread)
    requires k in m
    ensures Sum(m) == m[k] + Sum(m - {k})
  {
    var j :| j in m && Sum(m) == m[j] + Sum(m - {j});
    if j != k {
      SumTakeOut(m - {j}, k);
      SumTakeOut(m - {k}, j);
      assert m - {j} - {k} == m - {k} - {j};
    }
  }

  ghost predicate Pointwise(m: map<Thread, nat>, n: map<Thread, nat>) {
    m.Keys == n.Keys && forall k :: k in m ==> m[k] <= n[k]
  }

  lemma {:induction false} SumMonotone(m: map<Thread, nat>, n: map<Thread, nat>)
    requires Pointwise(m, n)
    ensures Sum(m) <= Sum(n)
  {
    if m == map[] {
      assert n.Keys == {};
      assert n == map[];
    } else {
      var k :| k in m;
      SumTakeOut(m, k);
      SumTakeOut(n, k);
      SumMonotone(m - {k}, n - {k});
    }
  }

  lemma SumStrict(m: map<Thread, nat>, n: map<Thread, nat>, k: Thread)
    requires Pointwise(m, n) && k in m && m[k] < n[k]
    ensures Sum(m) < Sum(n)
  {
    SumTakeOut(m, k);
    SumTakeOut(n, k);
    SumMonotone(m - {k}, n - {k});
  }

  lemma {:induction false} SumBounded(m: map<Thread, nat>, b: nat)
    requires forall k :: k in m ==> m[k] <= b
    ensures Sum(m) <= Times(|m|, b)
  {
    if m != map[] {
      var k :| k in m;
      SumTakeOut(m, k);
      SumBounded(m - {k}, b);
      assert |m - {k}| == |m| - 1;
    }
  }

  // ---------- how far every task and thread still is from rest ----------

  function Stage(pc: Pc): nat {
    match pc
    case Start => 3
    case Collecting => 2
    case Locking => 1
    case _ => 0
  }

  function Rank(s: State, t: Task): nat {
    if t in s.answered then 0
    else if t in s.queue then 2
    else if Submitter(t) in s.hand && Submitter(t) in s.threads then 3 + Stage(s.threads[Submitter(t)].pc)
    else 1
  }

  function Coarse(s: State, th: Thread): nat
    requires th in s.threads
  {
    match th
    case Submitter(t) => Rank(s, t) + if s.threads[th].timedOut then 0 else 1
    case Closer => if s.threads[th].pc == Closing then (if s.stopped then 2 else 3)
                   else if s.threads[th].pc == Joining then 1 else 0
    case _ => 0
  }

  function Fine(pc: Pc): nat {
    if pc in {Popping, Notified, Waiting} then 3
    else if pc in {Asleep, Leaving, Sweeping} then 1
    else 0
  }

  function CoarseMap(s: State): map<Thread, nat> {
    map th | th in s.threads :: Coarse(s, th)
  }

  function FineMap(s: State): map<Thread, nat> {
    map th | th in s.threads :: Fine(s.threads[th].pc)
  }

  /** `c * n`, in the shape the proofs use. */
  function Times(c: nat, n: nat): nat {
    if c == 0 then 0 else n + Times(c - 1, n)
  }

  lemma {:induction false} TimesMonotone(c: nat, d: nat, n: nat)
    requires c <= d
    ensures Times(c, n) <= Times(d, n)
    ensures c < d ==> Times(c, n) + n <= Times(d, n)
  {
    if c < d {
      TimesMonotone(c, d - 1, n);
    }
  }

  lemma {:induction false} TimesIsProduct(c: nat, n: nat)
    ensures Times(c, n) == c * n
  {
    if c > 0 {
      TimesIsProduct(c - 1, n);
      assert c * n == (c - 1) * n + n;
    }
  }

  /** The coarse measure outweighs any fine one of `n` threads. */
  function Weigh(coarse: nat, fine: nat, n: nat): nat {
    Times(coarse, Times(n, 3) + 1) + fine
  }

  /** The moves left, at most. */
  ghost function Budget(s: State): nat {
    Weigh(Sum(CoarseMap(s)), Sum(FineMap(s)), |s.threads|)
  }

  // ---------- no step raises the coarse measure ----------

  /** No task goes back on its way, no timer unfires, Close does not go back. */
  ghost predicate Forward(s: State, s': State) {
    && s'.threads.Keys == s.threads.Keys
    && (forall t :: t in s.answered ==> t in s'.answered)
    && (forall t :: t in s'.queue ==> t in s.queue || Submitter(t) in s.hand)
    && (forall t :: Submitter(t) in s'.hand && Submitter(t) in s.threads ==>
          Submitter(t) in s.hand && Stage(s'.threads[Submitter(t)].pc) <= Stage(s.threads[Submitter(t)].pc))
    && (forall t :: Submitter(t) in s.threads && s.threads[Submitter(t)].timedOut ==> s'.threads[Submitter(t)].timedOut)
    && (Closer in s.threads ==> Coarse(s', Closer) <= Coarse(s, Closer))
  }

  lemma HandOnly(s: State, place: Places, t: Task)
    requires Owned(s, place) && ThreadOk(s, Submitter(t)) && Submitter(t) in s.hand
    ensures t !in s.answered && t !in s.queue
  {
    assert Is(place, t, InHand(Submitter(t)));
  }

  lemma QueueOnly(s: State, place: Places, t: Task)
    requires Owned(s, place) && t in s.queue
    ensures t !in s.answered
  {
    assert Is(place, t, InQueue);
  }

  lemma ForwardIsPointwise(s: State, s': State, place: Places)
    requires Owned(s, place) && (forall th :: ThreadOk(s, th)) && Forward(s, s')
    ensures Pointwise(CoarseMap(s'), CoarseMap(s))
  {
    forall th | th in s.threads ensures Coarse(s', th) <= Coarse(s, th) {
      match th
      case Submitter(t) =>
        if Submitter(t) in s.hand {
          HandOnly(s, place, t);
        }
        if t in s.queue {
          QueueOnly(s, place, t);
        }
      case _ =>
    }
    assert CoarseMap(s').Keys == s'.threads.Keys && CoarseMap(s).Keys == s.threads.Keys;
  }

  ghost predicate CoarseDrop(s: State, s': State, th: Thread) {
    Forward(s, s') && th in s.threads && th in s'.threads && Coarse(s', th) < Coarse(s, th)
  }

  ghost predicate FineDrop(s: State, s': State, th: Thread) {
    && Forward(s, s') && th in s.threads && th in s'.threads
    && Fine(s'.threads[th].pc) < Fine(s.threads[th].pc)
    && forall other :: other in s.threads && other != th ==> s'.threads[other] == s.threads[other]
  }

  lemma FineBounded(s: State, n: nat)
    requires n == |s.threads|
    ensures Sum(FineMap(s)) <= Times(n, 3)
  {
    SumBounded(FineMap(s), 3);
    SameKeysSameSize(FineMap(s), s.threads);
  }

  lemma BudgetDrops(s: State, s': State)
    requires s'.threads.Keys == s.threads.Keys
    requires || Sum(CoarseMap(s')) < Sum(CoarseMap(s))
             || (Sum(CoarseMap(s')) <= Sum(CoarseMap(s)) && Sum(FineMap(s')) < Sum(FineMap(s)))
    ensures Budget(s') < Budget(s)
  {
    var n, coarse', fine' := |s.threads|, Sum(CoarseMap(s')), Sum(FineMap(s'));
    SameKeysSameSize(s'.threads, s.threads);
    FineBounded(s', n);
    WeighedDrop(coarse', Sum(CoarseMap(s)), fine', Sum(FineMap(s)), n);
  }

  lemma WeighedDrop(c': nat, c: nat, f': nat, f: nat, n: nat)
    requires f' <= Times(n, 3) && (c' < c || (c' <= c && f' < f))
    ensures Weigh(c', f', n) < Weigh(c, f, n)
  {
    TimesMonotone(c', c, Times(n, 3) + 1);
  }

  lemma CoarseDropSpends(s: State, s': State, th: Thread, place: Places)
    requires Owned(s, place) && (forall x :: ThreadOk(s, x)) && CoarseDrop(s, s', th)
    ensures Budget(s') < Budget(s)
  {
    ForwardIsPointwise(s, s', place);
    SumStrict(CoarseMap(s'), CoarseMap(s), th);
    BudgetDrops(s, s');
  }

  lemma FineMapDrops(s: State, s': State, th: Thread)
    requires FineDrop(s, s', th)
    ensures Sum(FineMap(s')) < Sum(FineMap(s))
  {
    var m, m' := FineMap(s), FineMap(s');
    assert m'.Keys == s'.threads.Keys && m.Keys == s.threads.Keys;
    forall k | k in m' ensures m'[k] <= m[k] {
      assert k in s.threads && k in s'.threads;
    }
    SumStrict(m', m, th);
  }

  lemma FineDropSpends(s: State, s': State, th: Thread, place: Places)
    requires Owned(s, place) && (forall x :: ThreadOk(s, x)) && FineDrop(s, s', th)
    ensures Budget(s') < Budget(s)
  {
    ForwardIsPointwise(s, s', place);
    SumMonotone(CoarseMap(s'), CoarseMap(s));
    FineMapDrops(s, s', th);
    BudgetDrops(s, s');
  }

  lemma SameKeysSameSize<V, W>(m: map<Thread, V>, n: map<Thread, W>)
    requires m.Keys == n.Keys
    ensures |m| == |n|
  {
    assert |m| == |m.Keys| && |n| == |n.Keys|;
  }

  // ---------- step by step ----------

  /** Expired tasks leave the queue for a batch. */
  lemma PurgeDrops(s: State, p: State, s': State, me: Thread, pc: Pc, l: Limits, place: Places)
    requires Owned(s, place) && (forall x :: ThreadOk(s, x)) && Dead(s.queue, s.now, l) != []
    requires me in s.threads && !me.Closer? && me !in s.dead && s.threads[me].pc != Asleep
    requires p == Purge(s, me, l) && s' == Move(p, me, pc) && Stage(pc) <= Stage(s.threads[me].pc)
    ensures CoarseDrop(s, s', Submitter(Dead(s.queue, s.now, l)[0]))
  {
    var t := Dead(s.queue, s.now, l)[0];
    assert t in Dead(s.queue, s.now, l);
    SplitMembers(s.queue, s.now, l, t);
    PurgeMovesForward(s, p, s', me, pc, l);
    assert Is(place, t, InQueue);
    QueueOnly(s, place, t);
    assert Submitter(t) !in s.hand by {
      assert ThreadOk(s, Submitter(t));
      assert Submitter(t) in s.hand ==> Is(place, t, InHand(Submitter(t)));
    }
    assert s'.threads[Submitter(t)].timedOut == s.threads[Submitter(t)].timedOut;
  }

  lemma PurgeMovesForward(s: State, p: State, s': State, me: Thread, pc: Pc, l: Limits)
    requires me in s.threads && !me.Closer? && me !in s.dead && s.threads[me].pc != Asleep
    requires p == Purge(s, me, l) && s' == Move(p, me, pc) && Stage(pc) <= Stage(s.threads[me].pc)
    ensures Forward(s, s')
    ensures s'.answered == s.answered && s'.hand == s.hand && s'.queue == Kept(s.queue, s.now, l)
    ensures forall th :: th in s.threads ==> th in s'.threads && s'.threads[th].timedOut == s.threads[th].timedOut
  {
    PurgeIsPurged(s, me, l);
    assert p.queue == Kept(s.queue, s.now, l);
    forall t | t in p.queue ensures t in s.queue {
      SplitMembers(s.queue, s.now, l, t);
    }
    PurgedMovesForward(s, p, me, pc);
  }

  lemma PurgedMovesForward(s: State, p: State, me: Thread, pc: Pc)
    requires Purged(s, p, me) && !me.Closer? && Stage(pc) <= Stage(s.threads[me].pc)
    requires p.answered == s.answered && forall t :: t in p.queue ==> t in s.queue
    ensures Forward(s, Move(p, me, pc))
    ensures forall th :: th in s.threads ==> Move(p, me, pc).threads[th].timedOut == s.threads[th].timedOut
  {
    PurgedStirs(s, p, me, pc);
    StirredForward(s, Move(p, me, pc), me);
  }

  lemma PurgedStirs(s: State, p: State, me: Thread, pc: Pc)
    requires Purged(s, p, me) && !me.Closer?
    ensures Stirred(s, Move(p, me, pc), me) && Move(p, me, pc).threads[me] == s.threads[me].(pc := pc)
  {
    assert Move(p, me, pc).threads.Keys == s.threads.Keys;
  }

  /** Waking sleepers and moving one thread on sends no task back. */
  lemma StirredForward(s: State, s': State, me: Thread)
    requires Stirred(s, s', me) && me in s.threads
    requires Stage(s'.threads[me].pc) <= Stage(s.threads[me].pc) && s'.threads[me].timedOut == s.threads[me].timedOut
    requires s'.answered == s.answered && s'.hand == s.hand && forall t :: t in s'.queue ==> t in s.queue
    ensures Forward(s, s')
    ensures forall th :: th in s.threads ==> s'.threads[th].timedOut == s.threads[th].timedOut
  {
    assert Closer in s.threads ==> Coarse(s', Closer) == Coarse(s, Closer);
  }

  /** Answering a task that was in a hand. */
  lemma AnsweredDrops(s: State, s': State, th: Thread, pc: Pc, t: Task)
    requires th in s.threads && !th.Closer? && s'.threads == s.threads[th := s.threads[th].(pc := pc)] && Stage(pc) == 0
    requires s'.queue == s.queue && s'.hand == s.hand - {th} && s'.stopped == s.stopped
    requires s'.answered == s.answered + [t] && t !in s.answered && Submitter(t) in s.threads
    ensures CoarseDrop(s, s', Submitter(t))
  {
    assert s'.threads.Keys == s.threads.Keys;
    assert Closer in s.threads ==> Coarse(s', Closer) == Coarse(s, Closer);
  }

  lemma InHandOnly(s: State, place: Places, th: Thread)
    requires Owned(s, place) && th in s.hand
    ensures s.hand[th] !in s.answered && Submitter(s.hand[th]) in s.threads
  {
    assert Is(place, s.hand[th], InHand(th));
  }

  lemma HandleDrops(s: State, n: nat, l: Limits, place: Places)
    requires Owned(s, place) && (forall x :: ThreadOk(s, x)) && Enabled(s, Handle(n), l)
    ensures CoarseDrop(s, Take(s, Handle(n), l), Submitter(s.hand[Worker(n)]))
  {
    InHandOnly(s, place, Worker(n));
    AnsweredDrops(s, Take(s, Handle(n), l), Worker(n), Popping, s.hand[Worker(n)]);
  }

  lemma AnswerHandDrops(s: State, step: Step, l: Limits, place: Places)
    requires Owned(s, place) && (forall x :: ThreadOk(s, x)) && Enabled(s, step, l)
    requires step.Expire? || step.Shed?
    ensures CoarseDrop(s, Take(s, step, l), Submitter(step.task))
  {
    var me := Submitter(step.task);
    assert ThreadOk(s, me);
    InHandOnly(s, place, me);
    AnsweredDrops(s, Take(s, step, l), me, Gone, step.task);
  }

  lemma AnswerDeadDrops(s: State, th: Thread, place: Places)
    requires Owned(s, place) && (forall x :: ThreadOk(s, x)) && th in s.dead && s.dead[th] != []
    ensures CoarseDrop(s, AnswerDead(s, th), Submitter(s.dead[th][0]))
  {
    var t := s.dead[th][0];
    assert t in s.dead[th];
    assert Is(place, t, InDead(th));
  }

  /** The threads of `s'` are those of `s`, sleepers perhaps woken, `me` moved on. */
  ghost predicate Stirred(s: State, s': State, me: Thread) {
    && s'.threads.Keys == s.threads.Keys && s'.stopped == s.stopped && !me.Closer?
    && forall th :: th in s.threads && th != me ==>
         s'.threads[th] == s.threads[th] || s'.threads[th] == Woken(s.threads[th])
  }

  lemma EnqueueStirs(s: State, t: Task, who: Option<Thread>)
    requires MaySignal(s, who) && Submitter(t) in s.threads
    ensures Stirred(s, Enqueue(s, t, who), Submitter(t))
    ensures Enqueue(s, t, who).threads[Submitter(t)].timedOut == s.threads[Submitter(t)].timedOut
  {}

  lemma EnqueueDrops(s: State, s': State, t: Task, place: Places)
    requires Owned(s, place) && (forall x :: ThreadOk(s, x))
    requires Stirred(s, s', Submitter(t)) && Submitter(t) in s.threads && Submitter(t) in s.hand
    requires s'.threads[Submitter(t)].timedOut == s.threads[Submitter(t)].timedOut
    requires s'.queue == s.queue + [t] && s'.hand == s.hand - {Submitter(t)} && s'.answered == s.answered
    ensures CoarseDrop(s, s', Submitter(t))
  {
    HandOnly(s, place, t);
    assert Submitter(t) in s'.threads;
    assert t in s'.queue;
    assert Closer in s.threads ==> Coarse(s', Closer) == Coarse(s, Closer);
  }

  lemma TakeHeadForward(s: State, s': State, n: nat)
    requires s.queue != [] && Stirred(s, s', Worker(n)) && s'.answered == s.answered && s'.queue == s.queue[1..]
    requires s'.hand == s.hand[Worker(n) := s.queue[0]]
    ensures Forward(s, s')
  {
    assert forall u :: u in s'.queue ==> u in s.queue;
    assert Closer in s.threads ==> Coarse(s', Closer) == Coarse(s, Closer);
  }

  lemma TakeHeadDrops(s: State, s': State, n: nat, place: Places)
    requires Owned(s, place) && (forall x :: ThreadOk(s, x)) && s.queue != []
    requires Stirred(s, s', Worker(n)) && s'.answered == s.answered && s'.queue == s.queue[1..]
    requires s'.hand == s.hand[Worker(n) := s.queue[0]]
    ensures CoarseDrop(s, s', Submitter(s.queue[0]))
  {
    var t := s.queue[0];
    TakeHeadForward(s, s', n);
    HeadPlace(s, place);
    assert Submitter(t) in s'.threads && Submitter(t) !in s'.hand;
    assert Rank(s, t) == 2 && Rank(s', t) == 1;
    assert s'.threads[Submitter(t)].timedOut == s.threads[Submitter(t)].timedOut;
  }

  lemma HeadPlace(s: State, place: Places)
    requires Owned(s, place) && (forall x :: ThreadOk(s, x)) && s.queue != []
    ensures s.queue[0] !in s.queue[1..] && s.queue[0] !in s.answered
    ensures Submitter(s.queue[0]) in s.threads && Submitter(s.queue[0]) !in s.hand
  {
    var t := s.queue[0];
    QueueOnly(s, place, t);
    assert Is(place, t, InQueue);
    assert ThreadOk(s, Submitter(t));
    assert Submitter(t) in s.hand ==> Is(place, t, InHand(Submitter(t)));
  }

  lemma TakeHeadAfterPurgeDrops(s: State, p: State, n: nat, l: Limits, place: Places)
    requires Owned(s, place) && (forall x :: ThreadOk(s, x)) && Enabled(s, Pop(n), l)
    requires p == Purge(s, Worker(n), l) && p.queue != [] && Dead(s.queue, s.now, l) != []
    ensures CoarseDrop(s, TakeHead(p, n), Submitter(Dead(s.queue, s.now, l)[0]))
  {
    var me := Worker(n);
    var q := Move(p, me, Handling);
    var t := Dead(s.queue, s.now, l)[0];
    assert ThreadOk(s, me);
    PurgeIsPurged(s, me, l);
    PurgeDrops(s, p, q, me, Handling, l, place);
    assert t !in q.queue by {
      assert t in Dead(s.queue, s.now, l);
      SplitMembers(s.queue, s.now, l, t);
    }
    assert q.queue != [];
    TakeHeadIsMove(p, q, n);
    HeadMovesForward(s, q, TakeHead(p, n), n, t);
  }

  lemma TakeHeadIsMove(p: State, q: State, n: nat)
    requires p.queue != [] && Worker(n) in p.threads && p.threads[Worker(n)].pc != Asleep
    requires q == Move(p, Worker(n), Handling)
    ensures var s' := TakeHead(p, n);
      && s'.threads.Keys == q.threads.Keys && s'.answered == q.answered && s'.queue == q.queue[1..]
      && s'.hand == q.hand[Worker(n) := q.queue[0]] && s'.stopped == q.stopped
      && forall th :: th in q.threads ==> s'.threads[th] == q.threads[th] || s'.threads[th] == Woken(q.threads[th])
  {}

  /** Taking the head after a purge changes no rank upwards. */
  lemma HeadMovesForward(s: State, q: State, s': State, n: nat, t: Task)
    requires CoarseDrop(s, q, Submitter(t)) && t !in q.queue && Worker(n) in q.threads
    requires s'.threads.Keys == q.threads.Keys && s'.answered == q.answered && q.queue != [] && s'.queue == q.queue[1..]
    requires s'.hand == q.hand[Worker(n) := q.queue[0]] && s'.stopped == q.stopped
    requires forall th :: th in q.threads ==> s'.threads[th] == q.threads[th] || s'.threads[th] == Woken(q.threads[th])
    ensures CoarseDrop(s, s', Submitter(t))
  {
    assert forall u :: u in s'.queue ==> u in q.queue;
    assert Closer in q.threads ==> Coarse(s', Closer) == Coarse(q, Closer);
  }

  lemma PlainPopSpends(s: State, n: nat, place: Places)
    requires Owned(s, place) && (forall x :: ThreadOk(s, x)) && s.queue != [] && Worker(n) in s.threads
    ensures Budget(TakeHead(s, n)) < Budget(s)
  {
    TakeHeadDrops(s, TakeHead(s, n), n, place);
    CoarseDropSpends(s, TakeHead(s, n), Submitter(s.queue[0]), place);
  }

  lemma PopSpends(s: State, n: nat, l: Limits, place: Places)
    requires Owned(s, place) && (forall x :: ThreadOk(s, x)) && Enabled(s, Pop(n), l)
    ensures Budget(Take(s, Pop(n), l)) < Budget(s)
  {
    var me := Worker(n);
    var p, s' := Purge(s, me, l), Take(s, Pop(n), l);
    assert ThreadOk(s, me);
    if p.queue != [] {
      if Dead(s.queue, s.now, l) == [] {
        SplitLengths(s.queue, s.now, l);
        assert p == s;
        PlainPopSpends(s, n, place);
      } else {
        TakeHeadAfterPurgeDrops(s, p, n, l, place);
        CoarseDropSpends(s, s', Submitter(Dead(s.queue, s.now, l)[0]), place);
      }
    } else {
      IdlePopSpends(s, p, n, l, place);
    }
  }

  lemma MoveDrops(s: State, th: Thread, pc: Pc)
    requires th in s.threads && !th.Closer? && Fine(pc) < Fine(s.threads[th].pc)
    requires Stage(pc) <= Stage(s.threads[th].pc)
    ensures FineDrop(s, Move(s, th, pc), th)
  {}

  lemma IdlePopSpends(s: State, p: State, n: nat, l: Limits, place: Places)
    requires Owned(s, place) && (forall x :: ThreadOk(s, x)) && Enabled(s, Pop(n), l)
    requires p == Purge(s, Worker(n), l) && p.queue == []
    ensures Budget(Take(s, Pop(n), l)) < Budget(s)
  {
    var me := Worker(n);
    var dead := Dead(s.queue, s.now, l);
    var pc := if s.closed then Leaving else if dead != [] then Popping else Asleep;
    var s' := Move(p, me, pc);
    assert s' == Take(s, Pop(n), l);
    if dead != [] {
      PurgeDrops(s, p, s', me, pc, l, place);
      CoarseDropSpends(s, s', Submitter(dead[0]), place);
    } else {
      SplitLengths(s.queue, s.now, l);
      assert p == s;
      MoveDrops(s, me, pc);
      FineDropSpends(s, s', me, place);
    }
  }

  lemma DozeSpends(s: State, t: Task, l: Limits, place: Places)
    requires Owned(s, place) && (forall x :: ThreadOk(s, x))
    requires Submitter(t) in s.threads && Submitter(t) !in s.dead && s.threads[Submitter(t)].pc in {Waiting, Notified}
    ensures Budget(Doze(s, t, l)) < Budget(s)
  {
    var me := Submitter(t);
    var p := Purge(s, me, l);
    var dead := Dead(s.queue, s.now, l);
    if dead != [] {
      PurgeDrops(s, p, Move(p, me, Waiting), me, Waiting, l, place);
      CoarseDropSpends(s, Move(p, me, Waiting), Submitter(dead[0]), place);
    } else {
      SplitLengths(s.queue, s.now, l);
      assert p == s;
      MoveDrops(s, me, Asleep);
      FineDropSpends(s, Move(s, me, Asleep), me, place);
    }
  }

  lemma RewaitSpends(s: State, step: Step, l: Limits, place: Places)
    requires Owned(s, place) && (forall x :: ThreadOk(s, x)) && Enabled(s, step, l) && step.Rewait?
    ensures Budget(Take(s, step, l)) < Budget(s)
  {
    var t, me := step.task, Submitter(step.task);
    assert ThreadOk(s, me);
    if !s.closed && !Full(s, l) {
      EnqueueStirs(s, t, step.who);
      EnqueueDrops(s, Enqueue(s, t, step.who), t, place);
      CoarseDropSpends(s, Enqueue(s, t, step.who), me, place);
    } else if !s.closed && !s.threads[me].timedOut {
      DozeSpends(s, t, l, place);
    } else {
      MoveDrops(s, me, Expiring);
      FineDropSpends(s, Move(s, me, Expiring), me, place);
    }
  }

  /** The first lock moves a submitter on in any case. */
  lemma LockSpends(s: State, step: Step, l: Limits, place: Places)
    requires Owned(s, place) && (forall x :: ThreadOk(s, x)) && Enabled(s, step, l) && step.Lock?
    ensures Budget(Take(s, step, l)) < Budget(s)
  {
    var t, me := step.task, Submitter(step.task);
    var s' := Take(s, step, l);
    assert ThreadOk(s, me);
    if !s.closed && !Full(s, l) {
      EnqueueStirs(s, t, step.who);
      EnqueueDrops(s, s', t, place);
    } else if !s.closed && l.wait && !Late(t, s.now, l) {
      FirstDozeDrops(s, t, l, place);
    } else {
      TurnedAwayDrops(s, t, if !s.closed && !l.wait then Shedding else Expiring, place);
    }
    CoarseDropSpends(s, s', me, place);
  }

  lemma TurnedAwayDrops(s: State, t: Task, pc: Pc, place: Places)
    requires Owned(s, place) && ThreadOk(s, Submitter(t)) && Ready(s, Submitter(t), Locking) && pc in {Shedding, Expiring}
    ensures CoarseDrop(s, Move(s, Submitter(t), pc), Submitter(t))
  {
    HandOnly(s, place, t);
    StirredForward(s, Move(s, Submitter(t), pc), Submitter(t));
  }

  lemma FirstDozeDrops(s: State, t: Task, l: Limits, place: Places)
    requires Owned(s, place) && (forall x :: ThreadOk(s, x)) && Ready(s, Submitter(t), Locking)
    ensures CoarseDrop(s, Doze(Arm(s, t), t, l), Submitter(t))
  {
    var me := Submitter(t);
    var a := Arm(s, t);
    var p := Purge(a, me, l);
    var pc := if me in p.dead then Waiting else Asleep;
    PurgeMovesForward(a, p, Move(p, me, pc), me, pc, l);
    assert ThreadOk(s, me);
    HandOnly(s, place, t);
    forall u | u in p.queue ensures u in s.queue {
      SplitMembers(s.queue, s.now, l, u);
    }
    ArmedForward(s, Move(p, me, pc), t);
  }

  lemma ArmedForward(s: State, s': State, t: Task)
    requires Submitter(t) in s.threads && Forward(Arm(s, t), s') && (forall u :: u in s'.queue ==> u in s.queue)
    requires Submitter(t) in s.hand && t !in s.answered && t !in s.queue
    requires s.threads[Submitter(t)].pc == Locking && Submitter(t) in s'.threads && Stage(s'.threads[Submitter(t)].pc) == 0
    requires s'.hand == s.hand && s'.answered == s.answered
    requires s'.threads[Submitter(t)].timedOut == s.threads[Submitter(t)].timedOut
    ensures CoarseDrop(s, s', Submitter(t))
  {
    var a := Arm(s, t);
    assert a.threads.Keys == s.threads.Keys;
    assert Closer in s.threads ==> Coarse(a, Closer) == Coarse(s, Closer);
  }

  // ---------- every step ----------

  lemma SubmitterStageDrops(s: State, s': State, t: Task, place: Places)
    requires Owned(s, place) && ThreadOk(s, Submitter(t)) && Submitter(t) in s.hand && Forward(s, s')
    requires Submitter(t) in s'.threads && Stage(s'.threads[Submitter(t)].pc) < Stage(s.threads[Submitter(t)].pc)
    requires t !in s'.queue && t !in s'.answered
    ensures CoarseDrop(s, s', Submitter(t))
  {
    HandOnly(s, place, t);
    assert Rank(s', t) < Rank(s, t);
  }

  lemma EntrySpends(s: State, step: Step, l: Limits, place: Places)
    requires Owned(s, place) && (forall x :: ThreadOk(s, x)) && Enabled(s, step, l)
    requires step.Check? || (step.Collect? && step.th.Submitter?)
    ensures Budget(Take(s, step, l)) < Budget(s)
  {
    var t := if step.Check? then step.task else step.th.task;
    var me, s' := Submitter(t), Take(s, step, l);
    assert ThreadOk(s, me);
    HandOnly(s, place, t);
    if step.Collect? {
      PurgeMovesForward(s, Purge(s, me, l), s', me, Locking, l);
      if t in Kept(s.queue, s.now, l) {
        SplitMembers(s.queue, s.now, l, t);
      }
    } else {
      assert Closer in s.threads ==> Coarse(s', Closer) == Coarse(s, Closer);
    }
    SubmitterStageDrops(s, s', t, place);
    CoarseDropSpends(s, s', me, place);
  }

  lemma AnswerSpends(s: State, step: Step, l: Limits, place: Places)
    requires Owned(s, place) && (forall x :: ThreadOk(s, x)) && Enabled(s, step, l)
    requires step.Expire? || step.Shed? || step.Handle? || step.ReplyDead?
    ensures Budget(Take(s, step, l)) < Budget(s)
  {
    if step.ReplyDead? {
      AnswerDeadDrops(s, step.th, place);
      CoarseDropSpends(s, Take(s, step, l), Submitter(s.dead[step.th][0]), place);
    } else if step.Handle? {
      HandleDrops(s, step.n, l, place);
      CoarseDropSpends(s, Take(s, step, l), Submitter(s.hand[Worker(step.n)]), place);
    } else {
      AnswerHandDrops(s, step, l, place);
      CoarseDropSpends(s, Take(s, step, l), Submitter(step.task), place);
    }
  }

  lemma CloserForward(s: State, step: Step, l: Limits)
    requires Enabled(s, step, l) && (step.CloseStop? || step.CloseLock? || step.Join?)
    ensures CoarseDrop(s, Take(s, step, l), Closer)
  {
    var s' := Take(s, step, l);
    if step.CloseLock? {
      CloseLockForward(s);
    } else {
      assert s'.threads.Keys == s.threads.Keys;
      assert Coarse(s', Closer) < Coarse(s, Closer);
    }
  }

  lemma CloseLockForward(s: State)
    requires At(s, Closer, Closing) && s.stopped
    ensures CoarseDrop(s, Move(Broadcast(s), Closer, Joining).(closed := true), Closer)
  {
    var s' := Move(Broadcast(s), Closer, Joining).(closed := true);
    assert s'.threads.Keys == s.threads.Keys;
  }

  lemma CloserSpends(s: State, step: Step, l: Limits, place: Places)
    requires Owned(s, place) && (forall x :: ThreadOk(s, x)) && Enabled(s, step, l)
    requires step.CloseStop? || step.CloseLock? || step.Join?
    ensures Budget(Take(s, step, l)) < Budget(s)
  {
    CloserForward(s, step, l);
    CoarseDropSpends(s, Take(s, step, l), Closer, place);
  }

  lemma FireSpends(s: State, t: Task, l: Limits, place: Places)
    requires Owned(s, place) && (forall x :: ThreadOk(s, x)) && Enabled(s, Fire(t), l)
    ensures Budget(Take(s, Fire(t), l)) < Budget(s)
  {
    var s' := Take(s, Fire(t), l);
    assert s'.threads.Keys == s.threads.Keys;
    assert Closer in s.threads ==> Coarse(s', Closer) == Coarse(s, Closer);
    assert Rank(s', t) <= Rank(s, t);
    CoarseDropSpends(s, s', Submitter(t), place);
  }

  lemma DepartureSpends(s: State, th: Thread, place: Places)
    requires Owned(s, place) && (forall x :: ThreadOk(s, x)) && th in s.threads && !th.Closer?
    requires s.threads[th].pc in {Leaving, Sweeping}
    ensures Budget(Move(s, th, Gone)) < Budget(s)
  {
    MoveDrops(s, th, Gone);
    FineDropSpends(s, Move(s, th, Gone), th, place);
  }

  lemma IdleSweep(s: State, l: Limits)
    requires Enabled(s, Collect(Sweeper), l) && Dead(s.queue, s.now, l) == []
    ensures Take(s, Collect(Sweeper), l) == s
  {
    SplitLengths(s.queue, s.now, l);
    assert Take(s, Collect(Sweeper), l).threads == s.threads;
  }

  /** An idle tick of the sweeper changes nothing; one that finds expired tasks moves them on. */
  lemma SweepNeverAdds(s: State, l: Limits, place: Places)
    requires Owned(s, place) && (forall x :: ThreadOk(s, x)) && Enabled(s, Collect(Sweeper), l)
    ensures Budget(Take(s, Collect(Sweeper), l)) <= Budget(s)
  {
    var s' := Take(s, Collect(Sweeper), l);
    var dead := Dead(s.queue, s.now, l);
    if dead == [] {
      IdleSweep(s, l);
    } else {
      PurgeDrops(s, Purge(s, Sweeper, l), s', Sweeper, Sweeping, l, place);
      CoarseDropSpends(s, s', Submitter(dead[0]), place);
    }
  }

  lemma TickKeeps(s: State, d: nat, l: Limits)
    ensures Budget(Take(s, Tick(d), l)) == Budget(s)
  {
    var s' := Take(s, Tick(d), l);
    assert CoarseMap(s') == CoarseMap(s) && FineMap(s') == FineMap(s);
  }

  /** Steps that happen at most so often: the threads' own moves, the firing of a timer, the call of Close. */
  predicate Counts(step: Step) {
    IsMove(step) || step.Fire? || step.CloseStop?
  }

  lemma StepSpends(s: State, step: Step, l: Limits, place: Places)
    requires Owned(s, place) && (forall x :: ThreadOk(s, x)) && Enabled(s, step, l) && Counts(step)
    ensures Budget(Take(s, step, l)) < Budget(s)
  {
    match step
    case Tick(_) =>
    case Arrive(_) =>
    case Check(_) => EntrySpends(s, step, l, place);
    case Collect(_) => EntrySpends(s, step, l, place);
    case ReplyDead(_) => AnswerSpends(s, step, l, place);
    case Lock(_, _) => LockSpends(s, step, l, place);
    case Rewait(_, _) => RewaitSpends(s, step, l, place);
    case Fire(t) => FireSpends(s, t, l, place);
    case Expire(_) => AnswerSpends(s, step, l, place);
    case Shed(_) => AnswerSpends(s, step, l, place);
    case Pop(n) => PopSpends(s, n, l, place);
    case Handle(_) => AnswerSpends(s, step, l, place);
    case Leave(n) => DepartureSpends(s, Worker(n), place);
    case SweepStop => DepartureSpends(s, Sweeper, place);
    case CloseStop => CloserSpends(s, step, l, place);
    case CloseLock => CloserSpends(s, step, l, place);
    case Join => CloserSpends(s, step, l, place);
  }

  // ---------- runs ----------

  function MoveCount(steps: seq<Step>): nat {
    if steps == [] then 0 else MoveCount(steps[..|steps| - 1]) + if Counts(steps[|steps| - 1]) then 1 else 0
  }

  lemma StepOfRun(trace: seq<State>, steps: seq<Step>, l: Limits, workers: nat, k: nat)
    requires Run(trace, steps, l, workers) && k < |steps| && !steps[k].Arrive?
    ensures Budget(trace[k + 1]) + (if Counts(steps[k]) then 1 else 0) <= Budget(trace[k])
  {
    var s, step := trace[k], steps[k];
    var place := RunOwned(trace, steps, l, workers, k);
    RunKeepsShape(trace, steps, l, workers, k);
    if Counts(step) {
      StepSpends(s, step, l, place);
    } else if step.Tick? {
      TickKeeps(s, step.d, l);
    } else {
      SweepNeverAdds(s, l, place);
    }
  }

  lemma {:induction false} Countdown(budgets: seq<nat>, steps: seq<Step>, i: nat, j: nat)
    requires |budgets| == |steps| + 1 && i <= j < |budgets|
    requires forall k :: i <= k < j ==> budgets[k + 1] + (if Counts(steps[k]) then 1 else 0) <= budgets[k]
    ensures MoveCount(steps[i..j]) + budgets[j] <= budgets[i]
    decreases j
  {
    if i < j {
      Countdown(budgets, steps, i, j - 1);
      var n := j - 1 - i;
      assert steps[i..j][..n] == steps[i..j - 1] && steps[i..j][n] == steps[j - 1];
    } else {
      assert steps[i..j] == [];
    }
  }

  /** While nothing is submitted, the steps taken come out of the budget at the start, whatever the scheduling. */
  lemma MovesComeOutOfBudget(trace: seq<State>, steps: seq<Step>, l: Limits, workers: nat, i: nat, j: nat)
    requires Run(trace, steps, l, workers) && i <= j < |trace|
    requires forall k :: i <= k < j ==> !steps[k].Arrive?
    ensures MoveCount(steps[i..j]) + Budget(trace[j]) <= Budget(trace[i])
  {
    var budgets := seq(|trace|, k requires 0 <= k < |trace| => Budget(trace[k]));
    forall k | i <= k < j ensures budgets[k + 1] + (if Counts(steps[k]) then 1 else 0) <= budgets[k] {
      StepOfRun(trace, steps, l, workers, k);
    }
    Countdown(budgets, steps, i, j);
  }

  lemma CoarseBounded(s: State)
    ensures Sum(CoarseMap(s)) <= Times(|s.threads|, 7)
  {
    SumBounded(CoarseMap(s), 7);
    SameKeysSameSize(CoarseMap(s), s.threads);
  }

  /** The budget no `n` threads can exceed. */
  function MoveLimit(n: nat): nat {
    Weigh(Times(n, 7), Times(n, 3), n)
  }

  lemma MoveLimitIsQuadratic(n: nat)
    ensures MoveLimit(n) == 7 * n * (3 * n + 1) + 3 * n
  {
    TimesIsProduct(n, 7);
    TimesIsProduct(n, 3);
    TimesIsProduct(n * 7, n * 3 + 1);
  }

  lemma BudgetBounded(s: State)
    ensures Budget(s) <= MoveLimit(|s.threads|)
  {
    CoarseBounded(s);
    FineBounded(s, |s.threads|);
    TimesMonotone(Sum(CoarseMap(s)), Times(|s.threads|, 7), Times(|s.threads|, 3) + 1);
  }

  /** With `n` threads, submitters that have long returned included, at most `7n(3n + 1) + 3n` steps of the pool follow
      the last submission: no livelock, no endless wake-up and sleep. */
  lemma MovesAreBounded(trace: seq<State>, steps: seq<Step>, l: Limits, workers: nat, i: nat, j: nat)
    requires Run(trace, steps, l, workers) && i <= j < |trace|
    requires forall k :: i <= k < j ==> !steps[k].Arrive?
    ensures MoveCount(steps[i..j]) <= MoveLimit(|trace[i].threads|)
  {
    MovesComeOutOfBudget(trace, steps, l, workers, i, j);
    BudgetBounded(trace[i]);
  }
}
