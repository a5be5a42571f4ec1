/** The worker pool's queue: tasks with deadlines in a slice of a buffer, compacted in place when tasks
    expire. Each method is what one holder of the pool's mutex does to the queue. */
module WorkQueue {
  import opened Sequences

  datatype Task = Task(id: nat, deadline: int, enqueued: int)

  datatype Limits = Limits(depth: nat, wait: bool, reserve: int, minBudget: int)

  function Left(t: Task, now: int, l: Limits): int {
    t.deadline - (now - t.enqueued) - l.reserve
  }

  predicate Late(t: Task, now: int, l: Limits) {
    Left(t, now, l) < l.minBudget
  }

  /** The tasks that stay, in order. */
  function Kept(q: seq<Task>, now: int, l: Limits): (r: seq<Task>)
    ensures |r| <= |q|
  {
    if q == [] then []
    else
      var n := |q| - 1;
      Kept(q[..n], now, l) + if Late(q[n], now, l) then [] else [q[n]]
  }

  /** The tasks that expired, in order. */
  function Dead(q: seq<Task>, now: int, l: Limits): seq<Task> {
    if q == [] then []
    else
      var n := |q| - 1;
      Dead(q[..n], now, l) + if Late(q[n], now, l) then [q[n]] else []
  }

  lemma SplitLast(q: seq<Task>, i: nat, now: int, l: Limits)
    requires i < |q|
    ensures Kept(q[..i + 1], now, l) == Kept(q[..i], now, l) + if Late(q[i], now, l) then [] else [q[i]]
    ensures Dead(q[..i + 1], now, l) == Dead(q[..i], now, l) + if Late(q[i], now, l) then [q[i]] else []
  {
    assert q[..i + 1][..i] == q[..i];
  }

  class Queue {
    const limits: Limits
    var buf: array<Task>
    var lo: nat
    var hi: nat

    ghost predicate Valid()
      reads this
    {
      lo <= hi <= buf.Length && hi - lo <= limits.depth && limits.depth >= 1
    }

    ghost function Tasks(): seq<Task>
      reads this, buf
      requires Valid()
    {
      buf[lo..hi]
    }

    constructor (depth: int, wait: bool, reserve: int, minBudget: int)
      ensures Valid() && fresh(buf) && Tasks() == []
      ensures limits == Limits(if depth < 1 then 1 else depth, wait, reserve, minBudget)
    {
      var d: nat := if depth < 1 then 1 else depth;
      limits := Limits(d, wait, reserve, minBudget);
      buf := new Task[d](_ => Task(0, 0, 0));
      lo, hi := 0, 0;
    }

    method Len() returns (n: nat)
      requires Valid()
      ensures n == |Tasks()|
    {
      n := hi - lo;
    }

    /** Appends; the slice moves to a larger buffer when it has reached the end of its own. */
    method Append(t: Task)
      requires Valid() && |Tasks()| < limits.depth
      modifies this`buf, this`lo, this`hi, buf
      ensures Valid() && Tasks() == old(Tasks()) + [t]
      ensures buf == old(buf) || fresh(buf)
    {
      if hi == buf.Length {
        var n := hi - lo;
        var bigger := new Task[2 * n + 1](_ => t);
        forall i | 0 <= i < n {
          bigger[i] := buf[lo + i];
        }
        assert bigger[..n] == buf[lo..hi];
        buf, lo, hi := bigger, 0, n;
      }
      buf[hi] := t;
      hi := hi + 1;
    }

    method Pop() returns (t: Task)
      requires Valid() && Tasks() != []
      modifies this`lo
      ensures Valid() && [t] + Tasks() == old(Tasks())
    {
      t := buf[lo];
      lo := lo + 1;
    }

    /** Takes the expired tasks out, and nothing else. */
    method TakeExpired(now: int) returns (dead: seq<Task>)
      requires Valid()
      modifies this`hi, buf
      ensures Valid() && Tasks() == Kept(old(Tasks()), now, limits) && dead == Dead(old(Tasks()), now, limits)
      ensures multiset(Tasks()) + multiset(dead) == multiset(old(Tasks()))
      ensures forall t :: t in dead ==> t.deadline - (now - t.enqueued) - limits.reserve < limits.minBudget
      ensures forall t :: t in Tasks() ==> t.deadline - (now - t.enqueued) - limits.reserve >= limits.minBudget
      ensures Within(Tasks(), old(Tasks())) && Within(dead, old(Tasks()))
    {
      ghost var was := Tasks();
      dead := Compact(now);
      SplitInOrder(was, now, limits);
    }

    /** Writes the tasks to keep over the slice it is reading. */
    method Compact(now: int) returns (dead: seq<Task>)
      requires Valid()
      modifies this`hi, buf
      ensures Valid() && Tasks() == Kept(old(Tasks()), now, limits) && dead == Dead(old(Tasks()), now, limits)
    {
      ghost var was := Tasks();
      dead := [];
      var kept, end := lo, hi;
      for i := lo to end
        invariant hi == end && lo <= kept <= i
        invariant forall j :: i <= j < end ==> buf[j] == old(buf[j])
        invariant buf[lo..kept] == Kept(was[..i - lo], now, limits)
        invariant dead == Dead(was[..i - lo], now, limits)
      {
        var t := buf[i];
        assert t == was[i - lo];
        SplitLast(was, i - lo, now, limits);
        if Late(t, now, limits) {
          dead := dead + [t];
        } else {
          Keep(kept, t);
          kept := kept + 1;
        }
      }
      assert was[..end - lo] == was;
      hi := kept;
      assert Tasks() == Kept(was, now, limits) && dead == Dead(was, now, limits);
    }

    /** Writes one task behind those kept so far. */
    method Keep(at: nat, t: Task)
      requires lo <= at < buf.Length
      modifies buf
      ensures buf[lo..at + 1] == old(buf[lo..at]) + [t]
      ensures forall j :: at < j < buf.Length ==> buf[j] == old(buf[j])
    {
      ghost var before := buf[lo..at];
      buf[at] := t;
      assert buf[lo..at + 1] == before + [t];
    }

    /** How full the queue is, in percent. */
    method Fill() returns (fill: nat)
      requires Valid()
      ensures fill <= 100 && (fill == 100 <==> |Tasks()| == limits.depth)
      ensures |Tasks()| < limits.depth ==> fill * limits.depth <= |Tasks()| * 100 < (fill + 1) * limits.depth
    {
      var n := Len();
      if n >= limits.depth {
        return 100;
      }
      fill := n * 100 / limits.depth;
      FloorOfPercent(n, limits.depth, fill);
    }
  }

  lemma FloorOfPercent(n: nat, depth: nat, fill: nat)
    requires n < depth && fill == n * 100 / depth
    ensures fill < 100 && fill * depth <= n * 100 < (fill + 1) * depth
  {
    ProductAtLeast(100, fill, depth);
  }

  lemma ProductAtLeast(a: int, b: int, c: int)
    ensures a <= b && c >= 0 ==> a * c <= b * c
  {}

  // ---------- keeping and dropping split the queue ----------

  /** A task has expired if less than the minimum is left of its deadline, the time waited and the reserve taken off. */
  lemma {:induction false} SplitMembers(q: seq<Task>, now: int, l: Limits, t: Task)
    ensures t in Kept(q, now, l) <==> t in q && t.deadline - (now - t.enqueued) - l.reserve >= l.minBudget
    ensures t in Dead(q, now, l) <==> t in q && t.deadline - (now - t.enqueued) - l.reserve < l.minBudget
  {
    if q != [] {
      var n := |q| - 1;
      SplitMembers(q[..n], now, l, t);
      assert q == q[..n] + [q[n]];
    }
  }

  lemma {:induction false} SplitCounts(q: seq<Task>, now: int, l: Limits)
    ensures multiset(Kept(q, now, l)) + multiset(Dead(q, now, l)) == multiset(q)
  {
    if q != [] {
      var n := |q| - 1;
      SplitCounts(q[..n], now, l);
      assert q == q[..n] + [q[n]];
    }
  }

  ghost predicate NoRepeats<T(!new)>(s: seq<T>) {
    forall i, j :: 0 <= i < j < |s| ==> s[i] != s[j]
  }

  lemma {:induction false} SplitNoRepeats(q: seq<Task>, now: int, l: Limits)
    requires NoRepeats(q)
    ensures NoRepeats(Kept(q, now, l)) && NoRepeats(Dead(q, now, l))
  {
    if q != [] {
      var n := |q| - 1;
      SplitNoRepeats(q[..n], now, l);
      SplitMembers(q[..n], now, l, q[n]);
    }
  }

  // ---------- order ----------

  lemma {:induction false} DeadWithin(q: seq<Task>, now: int, l: Limits)
    ensures Within(Dead(q, now, l), q)
  {
    if q != [] {
      var n := |q| - 1;
      DeadWithin(q[..n], now, l);
      assert q == q[..n] + [q[n]];
      if Late(q[n], now, l) {
        WithinBoth(Dead(q[..n], now, l), q[..n], q[n]);
      } else {
        assert Dead(q, now, l) == Dead(q[..n], now, l);
        WithinLonger(Dead(q[..n], now, l), q[..n], q[n]);
      }
    }
  }

  /** The two parts of the queue: every task is in one of them, the late ones in the second, and both keep the order. */
  lemma SplitInOrder(q: seq<Task>, now: int, l: Limits)
    ensures multiset(Kept(q, now, l)) + multiset(Dead(q, now, l)) == multiset(q)
    ensures forall t :: t in Dead(q, now, l) ==> t.deadline - (now - t.enqueued) - l.reserve < l.minBudget
    ensures forall t :: t in Kept(q, now, l) ==> t.deadline - (now - t.enqueued) - l.reserve >= l.minBudget
    ensures Within(Kept(q, now, l), q) && Within(Dead(q, now, l), q)
  {
    SplitCounts(q, now, l);
    forall t
      ensures t in Kept(q, now, l) ==> t.deadline - (now - t.enqueued) - l.reserve >= l.minBudget
      ensures t in Dead(q, now, l) ==> t.deadline - (now - t.enqueued) - l.reserve < l.minBudget
    {
      SplitMembers(q, now, l, t);
    }
    KeptWithin([], q, now, l);
    assert [] + Kept(q, now, l) == Kept(q, now, l) && [] + q == q;
    DeadWithin(q, now, l);
  }

  /** Compaction keeps the order, also behind tasks that left before. */
  lemma {:induction false} KeptWithin(front: seq<Task>, q: seq<Task>, now: int, l: Limits)
    ensures Within(front + Kept(q, now, l), front + q)
  {
    if q == [] {
      WithinSelf(front);
      assert front + q == front && front + Kept(q, now, l) == front;
    } else {
      var n := |q| - 1;
      KeptWithin(front, q[..n], now, l);
      assert front + q == (front + q[..n]) + [q[n]];
      if Late(q[n], now, l) {
        assert front + Kept(q, now, l) == front + Kept(q[..n], now, l);
        WithinLonger(front + Kept(q[..n], now, l), front + q[..n], q[n]);
      } else {
        assert front + Kept(q, now, l) == (front + Kept(q[..n], now, l)) + [q[n]];
        WithinBoth(front + Kept(q[..n], now, l), front + q[..n], q[n]);
      }
    }
  }
}
