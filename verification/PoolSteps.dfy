/** The worker pool as a transition system. Every section between a lock and the next unlock, and every
    action outside the lock, is one atomic step; submitters, workers, the sweeper, wait timers and Close
    interleave freely. One condition variable serves submitters and workers alike. */
module PoolSteps {
  import opened Wrappers
  import opened WorkQueue

  datatype Thread = Submitter(task: Task) | Worker(n: nat) | Sweeper | Closer

  /** What the handler was called for. */
  datatype Reason = Served | Expired | Limited

  datatype Pc =
    | Start        // a submitter before its first look at the deadline
    | Collecting   // a submitter about to collect expired tasks
    | Locking      // a submitter about to lock and decide
    | Waiting      // a submitter in its wait loop, about to lock again
    | Asleep       // on the condition variable
    | Notified     // woken, the lock not yet regained
    | Expiring     // a submitter about to answer its own task as expired
    | Shedding     // a submitter about to answer its own task as over the limit
    | Popping      // a worker about to lock and look for a task
    | Handling     // a worker with a task
    | Leaving      // a worker that saw the pool closed and empty
    | Sweeping     // the sweeper between two ticks
    | Closing      // Close not yet called, or between its two halves
    | Joining      // Close waiting for the workers and the sweeper
    | Gone

  datatype Local = Local(pc: Pc, armed: bool, timedOut: bool)

  /** `dead` holds the batches of expired tasks that threads took from the queue and have yet to answer,
      `hand` the single task a thread works on. `entered` and `taken` record, in order, what was enqueued
      and what workers took. */
  datatype State = State(
    now: int,
    queue: seq<Task>,
    closed: bool,
    stopped: bool,
    threads: map<Thread, Local>,
    dead: map<Thread, seq<Task>>,
    hand: map<Thread, Task>,
    answered: seq<Task>,
    reasons: seq<Reason>,
    accepted: nat,
    shed: nat,
    expired: nat,
    entered: seq<Task>,
    taken: seq<Task>)

  datatype Step =
    | Tick(d: nat)
    | Arrive(task: Task)
    | Check(task: Task)
    | Collect(th: Thread)
    | ReplyDead(th: Thread)
    | Lock(task: Task, who: Option<Thread>)
    | Rewait(task: Task, who: Option<Thread>)
    | Fire(task: Task)
    | Expire(task: Task)
    | Shed(task: Task)
    | Pop(n: nat)
    | Handle(n: nat)
    | Leave(n: nat)
    | SweepStop
    | CloseStop
    | CloseLock
    | Join

  // ---------- reading a state ----------

  predicate At(s: State, th: Thread, pc: Pc) {
    th in s.threads && s.threads[th].pc == pc
  }

  /** At `pc`, with no batch left to answer. */
  predicate Ready(s: State, th: Thread, pc: Pc) {
    At(s, th, pc) && th !in s.dead
  }

  predicate Full(s: State, l: Limits) {
    |s.queue| >= l.depth
  }

  // ---------- the pieces of a locked section ----------

  function Move(s: State, th: Thread, pc: Pc): State
    requires th in s.threads
  {
    s.(threads := s.threads[th := s.threads[th].(pc := pc)])
  }

  function Woken(l: Local): Local {
    if l.pc == Asleep then l.(pc := Notified) else l
  }

  function Broadcast(s: State): State {
    s.(threads := map th | th in s.threads :: Woken(s.threads[th]))
  }

  /** Signal wakes one sleeper, whichever, if there is any. */
  predicate MaySignal(s: State, who: Option<Thread>) {
    match who
    case Some(th) => At(s, th, Asleep)
    case None => forall th :: th in s.threads ==> s.threads[th].pc != Asleep
  }

  function Signal(s: State, who: Option<Thread>): State
    requires MaySignal(s, who)
  {
    if who.Some? then Move(s, who.value, Notified) else s
  }

  /** Removes the expired tasks; their batch goes to `th`, and every sleeper learns of the room made. */
  function Purge(s: State, th: Thread, l: Limits): State {
    var dead := Dead(s.queue, s.now, l);
    if dead == [] then s.(queue := Kept(s.queue, s.now, l))
    else Broadcast(s).(queue := Kept(s.queue, s.now, l), dead := s.dead[th := dead])
  }

  function Enqueue(s: State, t: Task, who: Option<Thread>): State
    requires Submitter(t) in s.threads && MaySignal(s, who)
  {
    Move(Signal(s, who), Submitter(t), Gone).(
      queue := s.queue + [t], hand := s.hand - {Submitter(t)}, accepted := s.accepted + 1, entered := s.entered + [t])
  }

  /** The wait loop's body: answer for expired tasks if there are any, else sleep. */
  function Doze(s: State, t: Task, l: Limits): State
    requires Submitter(t) in s.threads
  {
    var purged := Purge(s, Submitter(t), l);
    Move(purged, Submitter(t), if Submitter(t) in purged.dead then Waiting else Asleep)
  }

  function Arm(s: State, t: Task): State
    requires Submitter(t) in s.threads
  {
    s.(threads := s.threads[Submitter(t) := s.threads[Submitter(t)].(armed := true)])
  }

  function Answer(s: State, t: Task, r: Reason): State {
    s.(answered := s.answered + [t], reasons := s.reasons + [r],
       expired := if r == Expired then s.expired + 1 else s.expired,
       shed := if r == Limited then s.shed + 1 else s.shed)
  }

  function TakeHead(s: State, n: nat): State
    requires s.queue != [] && Worker(n) in s.threads
  {
    Move(Broadcast(s), Worker(n), Handling).(
      queue := s.queue[1..], hand := s.hand[Worker(n) := s.queue[0]], taken := s.taken + [s.queue[0]])
  }

  // ---------- the steps ----------

  predicate Wakes(s: State, th: Thread, pc: Pc) {
    Ready(s, th, pc) || Ready(s, th, Notified)
  }

  predicate Enabled(s: State, step: Step, l: Limits) {
    match step
    case Tick(_) => true
    case Arrive(t) => Submitter(t) !in s.threads && t.enqueued == s.now
    case Check(t) => Ready(s, Submitter(t), Start)
    case Collect(th) => if th.Submitter? then Ready(s, th, Collecting) else th == Sweeper && Ready(s, th, Sweeping)
    case ReplyDead(th) => th in s.dead && s.dead[th] != []
    case Lock(t, who) =>
      Ready(s, Submitter(t), Locking) && if s.closed || Full(s, l) then who == None else MaySignal(s, who)
    case Rewait(t, who) =>
      Wakes(s, Submitter(t), Waiting) && if s.closed || Full(s, l) then who == None else MaySignal(s, who)
    case Fire(t) => Submitter(t) in s.threads && s.threads[Submitter(t)].armed && !s.threads[Submitter(t)].timedOut
    case Expire(t) => Ready(s, Submitter(t), Expiring)
    case Shed(t) => Ready(s, Submitter(t), Shedding)
    case Pop(n) => Wakes(s, Worker(n), Popping)
    case Handle(n) => Ready(s, Worker(n), Handling) && Worker(n) in s.hand
    case Leave(n) => Ready(s, Worker(n), Leaving)
    case SweepStop => Ready(s, Sweeper, Sweeping) && s.stopped
    case CloseStop => At(s, Closer, Closing) && !s.stopped
    case CloseLock => At(s, Closer, Closing) && s.stopped
    case Join =>
      && At(s, Closer, Joining)
      && forall th :: th in s.threads && (th.Worker? || th.Sweeper?) ==> s.threads[th].pc == Gone
  }

  function Take(s: State, step: Step, l: Limits): State
    requires Enabled(s, step, l)
  {
    match step
    case Tick(d) => s.(now := s.now + d)
    case Arrive(t) =>
      s.(threads := s.threads[Submitter(t) := Local(Start, false, false)], hand := s.hand[Submitter(t) := t])
    case Check(t) => Move(s, Submitter(t), if Late(t, s.now, l) then Expiring else Collecting)
    case Collect(th) => Move(Purge(s, th, l), th, if th.Sweeper? then Sweeping else Locking)
    case ReplyDead(th) => AnswerDead(s, th)
    case Lock(t, who) =>
      if s.closed then Move(s, Submitter(t), Expiring)
      else if !Full(s, l) then Enqueue(s, t, who)
      else if !l.wait then Move(s, Submitter(t), Shedding)
      else if Late(t, s.now, l) then Move(s, Submitter(t), Expiring)
      else Doze(Arm(s, t), t, l)
    case Rewait(t, who) =>
      if Full(s, l) && !s.threads[Submitter(t)].timedOut && !s.closed then Doze(s, t, l)
      else if s.closed then Move(s, Submitter(t), Expiring)
      else if !Full(s, l) then Enqueue(s, t, who)
      else Move(s, Submitter(t), Expiring)
    case Fire(t) =>
      var woken := Broadcast(s);
      woken.(threads := woken.threads[Submitter(t) := woken.threads[Submitter(t)].(timedOut := true)])
    case Expire(t) => Move(Answer(s, t, Expired), Submitter(t), Gone).(hand := s.hand - {Submitter(t)})
    case Shed(t) => Move(Answer(s, t, Limited), Submitter(t), Gone).(hand := s.hand - {Submitter(t)})
    case Pop(n) => PopLocked(s, n, l)
    case Handle(n) =>
      var t := s.hand[Worker(n)];
      Move(Answer(s, t, if Late(t, s.now, l) then Expired else Served), Worker(n), Popping).(hand := s.hand - {Worker(n)})
    case Leave(n) => Move(s, Worker(n), Gone)
    case SweepStop => Move(s, Sweeper, Gone)
    case CloseStop => s.(stopped := true)
    case CloseLock => Move(Broadcast(s), Closer, Joining).(closed := true)
    case Join => Move(s, Closer, Gone)
  }

  function AnswerDead(s: State, th: Thread): State
    requires th in s.dead && s.dead[th] != []
  {
    var rest := s.dead[th][1..];
    Answer(s, s.dead[th][0], Expired).(dead := if rest == [] then s.dead - {th} else s.dead[th := rest])
  }

  function PopLocked(s: State, n: nat, l: Limits): State
    requires Worker(n) in s.threads
  {
    var purged := Purge(s, Worker(n), l);
    if purged.queue != [] then TakeHead(purged, n)
    else if s.closed then Move(purged, Worker(n), Leaving)
    else if Worker(n) in purged.dead then Move(purged, Worker(n), Popping)
    else Move(purged, Worker(n), Asleep)
  }

  function Initial(workers: nat, now: int): State {
    State(now, [], false, false,
          map th | th in InitialThreads(workers) :: Local(InitialPc(th), false, false),
          map[], map[], [], [], 0, 0, 0, [], [])
  }

  function InitialThreads(workers: nat): set<Thread> {
    (set n | 0 <= n < workers :: Worker(n)) + {Sweeper, Closer}
  }

  function InitialPc(th: Thread): Pc {
    match th
    case Worker(_) => Popping
    case Sweeper => Sweeping
    case Closer => Closing
    case Submitter(_) => Start
  }

  ghost predicate Run(trace: seq<State>, steps: seq<Step>, l: Limits, workers: nat) {
    && l.depth >= 1
    && |trace| == |steps| + 1
    && trace[0] == Initial(workers, trace[0].now)
    && forall i :: 0 <= i < |steps| ==> Enabled(trace[i], steps[i], l) && trace[i + 1] == Take(trace[i], steps[i], l)
  }
}
