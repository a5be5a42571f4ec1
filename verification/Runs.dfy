/** The single-bucket results carried over to runs of whole stores, in clock time. */
module Runs {
  import opened Wrappers
  import opened Tiers
  import opened Refs
  import opened Ledgers
  import opened History
  import opened Eviction
  import opened Agreement

  /** The in-memory store that never evicts, from empty. */
  function LocalRun(tiers: map<string, Tier>, calls: seq<Call>): Slots {
    if calls == [] then map[]
    else LocalCall(LocalRun(tiers, calls[..|calls| - 1]), tiers, calls[|calls| - 1])
  }

  ghost predicate Proper(tiers: map<string, Tier>, c: Call) {
    Distinct(c.refs) && forall i :: 0 <= i < |c.refs| ==> Usable(tiers, c.refs[i])
  }

  ghost predicate ProperRun(tiers: map<string, Tier>, calls: seq<Call>) {
    && KeysInjective(tiers)
    && (forall k :: 0 <= k < |calls| ==> Proper(tiers, calls[k]))
    && (forall k :: 0 <= k < |calls| ==> 0.0 <= calls[k].now)
    && forall j, k :: 0 <= j < k < |calls| ==> calls[j].now <= calls[k].now
  }

  /** The events of one bucket in a run, given the mark of each call's clock. */
  function HistoryOf(calls: seq<Call>, marks: seq<real>, ref: Ref): Past
    requires |marks| == |calls|
  {
    if calls == [] then []
    else
      var n := |calls| - 1;
      HistoryOf(calls[..n], marks[..n], ref)
      + if ref in calls[n].refs then [Event(marks[n], ChargeOn(calls[n].charges, ref))] else []
  }

  function MarksOf(tier: Tier, calls: seq<Call>): seq<real> {
    seq(|calls|, k requires 0 <= k < |calls| => tier.Mark(calls[k].now))
  }

  lemma SlotIsKeyless(slot: Option<real>, v: Visit)
    ensures LocalSlot(slot, v) == LocalSlot(slot, v.(key := ""))
  {}

  lemma CallOnBucket(tiers: map<string, Tier>, m: Slots, c: Call, ref: Ref)
    requires KeysInjective(tiers) && Proper(tiers, c) && Usable(tiers, ref)
    ensures Get(LocalCall(m, tiers, c), BucketKey(ref))
      == if ref in c.refs
         then LocalSlot(Get(m, BucketKey(ref)), VisitOf(tiers, c.charges, ref, c.now))
         else Get(m, BucketKey(ref))
  {
    var visits := VisitsOf(tiers, c.charges, c.refs, c.now);
    Apart(tiers, c.refs);
    if ref in c.refs {
      var i :| 0 <= i < |c.refs| && c.refs[i] == ref;
      assert KeysApart(visits);
      VisitedAt(m, visits, i);
    } else {
      VisitedElsewhere(m, visits, BucketKey(ref));
    }
  }

  /** A bucket of the store is the bucket of its own history. */
  lemma {:induction false} SlotOfRun(tiers: map<string, Tier>, calls: seq<Call>, ref: Ref, tier: Tier, marks: seq<real>)
    requires ProperRun(tiers, calls) && Usable(tiers, ref)
    requires tier == TierOf(tiers, ref.kind) && marks == MarksOf(tier, calls)
    ensures Get(LocalRun(tiers, calls), BucketKey(ref)) == After(HistoryOf(calls, marks, ref), tier.max)
  {
    if calls != [] {
      var n := |calls| - 1;
      SlotOfRun(tiers, calls[..n], ref, tier, marks[..n]);
      CallOnBucket(tiers, LocalRun(tiers, calls[..n]), calls[n], ref);
      var h, e := HistoryOf(calls[..n], marks[..n], ref), Event(marks[n], ChargeOn(calls[n].charges, ref));
      AfterAppend(h, e, tier.max);
      assert h + [] == h;
      SlotIsKeyless(After(h, tier.max), VisitOf(tiers, calls[n].charges, ref, calls[n].now));
    }
  }

  lemma {:induction false} HistoryReached(calls: seq<Call>, marks: seq<real>, ref: Ref, mark: real)
    requires |marks| == |calls|
    requires forall j, k :: 0 <= j < k < |marks| ==> marks[j] <= marks[k]
    requires forall k :: 0 <= k < |marks| ==> marks[k] <= mark
    ensures Reached(HistoryOf(calls, marks, ref), mark)
  {
    if calls != [] {
      var n := |calls| - 1;
      HistoryReached(calls[..n], marks[..n], ref, marks[n]);
    }
  }

  lemma MarksReach(tier: Tier, calls: seq<Call>, now: real)
    requires tier.Enabled()
    requires forall j, k :: 0 <= j < k < |calls| ==> calls[j].now <= calls[k].now
    requires forall k :: 0 <= k < |calls| ==> calls[k].now <= now
    ensures var marks := MarksOf(tier, calls);
      && (forall j, k :: 0 <= j < k < |marks| ==> marks[j] <= marks[k])
      && forall k :: 0 <= k < |marks| ==> marks[k] <= tier.Mark(now)
  {
    forall k | 0 <= k < |calls| ensures tier.Mark(calls[k].now) <= tier.Mark(now) {
      MarkMoves(tier, calls[k].now, now);
    }
    forall j, k | 0 <= j < k < |calls| ensures tier.Mark(calls[j].now) <= tier.Mark(calls[k].now) {
      MarkMoves(tier, calls[j].now, calls[k].now);
    }
  }

  /** The level of a bucket, read at `now` after the run. */
  function LevelAfter(tiers: map<string, Tier>, calls: seq<Call>, ref: Ref, now: real): real {
    var tier := TierOf(tiers, ref.kind);
    Held(Get(LocalRun(tiers, calls), BucketKey(ref)), tier.max, tier.Mark(now))
  }

  // ---------- the window bound, in clock time ----------

  /** What a call charges a bucket: nothing if it does not visit it. */
  function AmountOn(c: Call, ref: Ref): real {
    if ref in c.refs then ChargeOn(c.charges, ref).GetOr(0.0) else 0.0
  }

  /** All charges a run made to a bucket from call `k` on. */
  function ChargedFrom(calls: seq<Call>, ref: Ref, k: nat): real
    requires k <= |calls|
    decreases |calls| - k
  {
    if k == |calls| then 0.0
    else
      AmountOn(calls[k], ref) + ChargedFrom(calls, ref, k + 1)
  }

  ghost predicate NoRefunds(calls: seq<Call>, ref: Ref) {
    forall k :: 0 <= k < |calls| ==> ChargeOn(calls[k].charges, ref).GetOr(0.0) >= 0.0
  }

  lemma {:induction false} ChargedFromAppend(calls: seq<Call>, ref: Ref, k: nat)
    requires k < |calls|
    ensures var n := |calls| - 1;
      ChargedFrom(calls, ref, k) == ChargedFrom(calls[..n], ref, k) + ChargedFrom(calls, ref, n)
    decreases |calls| - k
  {
    if k < |calls| - 1 {
      ChargedFromAppend(calls, ref, k + 1);
    }
  }

  /** Every event of a bucket's history is a call, and its windows are the windows of the run. */
  lemma {:induction false} CallOfEvent(calls: seq<Call>, marks: seq<real>, ref: Ref, j: nat)
    returns (k: nat)
    requires |marks| == |calls| && j < |HistoryOf(calls, marks, ref)|
    ensures k < |calls| && ref in calls[k].refs
    ensures HistoryOf(calls, marks, ref)[j].mark == marks[k]
    ensures Total(HistoryOf(calls, marks, ref), j) == ChargedFrom(calls, ref, k)
  {
    var n := |calls| - 1;
    var h, g := HistoryOf(calls, marks, ref), HistoryOf(calls[..n], marks[..n], ref);
    if j < |g| {
      k := CallOfEvent(calls[..n], marks[..n], ref, j);
      ChargedFromAppend(calls, ref, k);
      if ref in calls[n].refs {
        TotalAppend(h, j);
        assert h[..|g|] == g;
      } else {
        assert h == g;
      }
    } else {
      k := n;
      assert Total(h, j + 1) == 0.0;
      assert ChargedFrom(calls, ref, n + 1) == 0.0;
    }
  }

  lemma {:induction false} HistoryNonNegative(calls: seq<Call>, marks: seq<real>, ref: Ref)
    requires |marks| == |calls| && NoRefunds(calls, ref)
    ensures NonNegative(HistoryOf(calls, marks, ref))
  {
    if calls != [] {
      var n := |calls| - 1;
      HistoryNonNegative(calls[..n], marks[..n], ref);
    }
  }

  /** What a bucket leaks between two clock readings: `rate * elapsed`, by `MarkMoves`. */
  function Leak(tier: Tier, since: real, now: real): real {
    tier.Mark(now) - tier.Mark(since)
  }

  lemma WithinBudgetInMarks(calls: seq<Call>, marks: seq<real>, ref: Ref, max: real, mark: real, x: real)
    requires |marks| == |calls| && max > 0.0 && x >= 0.0 && NoRefunds(calls, ref)
    requires forall j, k :: 0 <= j < k < |marks| ==> marks[j] <= marks[k]
    requires forall k :: 0 <= k < |marks| ==> marks[k] <= mark
    requires forall k :: 0 <= k < |calls| && ref in calls[k].refs ==>
      ChargedFrom(calls, ref, k) <= x + (mark - marks[k])
    ensures Held(After(HistoryOf(calls, marks, ref), max), max, mark) <= x
  {
    var h := HistoryOf(calls, marks, ref);
    HistoryReached(calls, marks, ref, mark);
    HistoryNonNegative(calls, marks, ref);
    forall j | 0 <= j < |h| && h[j].charge.Some? ensures Total(h, j) <= x + (mark - h[j].mark) {
      var k := CallOfEvent(calls, marks, ref, j);
    }
    WithinBudgetStaysBelow(h, max, mark, x);
  }

  /** A subject whose charges since any moment stay within `x` plus the leak of the time elapsed is never
      shown above `x`. */
  lemma WithinBudget(tiers: map<string, Tier>, calls: seq<Call>, ref: Ref, now: real, x: real)
    requires ProperRun(tiers, calls) && Usable(tiers, ref) && NoRefunds(calls, ref) && x >= 0.0
    requires forall k :: 0 <= k < |calls| ==> calls[k].now <= now
    requires forall k :: 0 <= k < |calls| && ref in calls[k].refs ==>
      ChargedFrom(calls, ref, k) <= x + Leak(TierOf(tiers, ref.kind), calls[k].now, now)
    ensures LevelAfter(tiers, calls, ref, now) <= x
  {
    var tier := TierOf(tiers, ref.kind);
    var marks := MarksOf(tier, calls);
    MarksReach(tier, calls, now);
    WithinBudgetInMarks(calls, marks, ref, tier.max, tier.Mark(now), x);
    SlotOfRun(tiers, calls, ref, tier, marks);
  }

  // ---------- more charges, higher levels ----------

  /** Two runs over the same instants, the second charging every bucket at least as much in each call. Which
      other buckets a call visits, to read or to charge them, is free in both. */
  ghost predicate HeavierRun(calls: seq<Call>, more: seq<Call>) {
    && |calls| == |more|
    && forall k :: 0 <= k < |calls| ==> HeavierCall(calls[k], more[k])
  }

  ghost predicate HeavierCall(c: Call, d: Call) {
    c.now == d.now && forall ref :: 0.0 <= AmountOn(c, ref) <= AmountOn(d, ref)
  }

  /** A visited or unvisited bucket after a call: filled by what the call charges, clamped. */
  lemma NextFill(slot: Option<real>, v: Visit, visited: bool)
    requires v.max > 0.0 && (slot.Some? ==> slot.value <= v.mark + v.max)
    ensures var next := if visited then LocalSlot(slot, v) else slot;
      && (next.Some? ==> next.value <= v.mark + v.max)
      && Held(next, v.max, v.mark)
         == Clamp(Held(slot, v.max, v.mark) + (if visited then v.charge.GetOr(0.0) else 0.0), 0.0, v.max)
  {}

  /** The fill of any bucket moves by the call's amount. */
  lemma CallFills(tiers: map<string, Tier>, m: Slots, c: Call, ref: Ref, tier: Tier, last: real)
    requires KeysInjective(tiers) && Proper(tiers, c) && Usable(tiers, ref) && tier == TierOf(tiers, ref.kind)
    requires last <= c.now && BoundedAt(Get(m, BucketKey(ref)), tier.max, tier.Mark(last))
    ensures BoundedAt(Get(LocalCall(m, tiers, c), BucketKey(ref)), tier.max, tier.Mark(c.now))
    ensures Held(Get(LocalCall(m, tiers, c), BucketKey(ref)), tier.max, tier.Mark(c.now))
         == Clamp(Held(Get(m, BucketKey(ref)), tier.max, tier.Mark(c.now)) + AmountOn(c, ref), 0.0, tier.max)
    ensures tier.Mark(last) <= tier.Mark(c.now)
  {
    MarkMoves(tier, last, c.now);
    CallOnBucket(tiers, m, c, ref);
    NextFill(Get(m, BucketKey(ref)), VisitOf(tiers, c.charges, ref, c.now), ref in c.refs);
  }

  ghost predicate BoundedAt(slot: Option<real>, max: real, mark: real) {
    slot.Some? ==> slot.value <= mark + max
  }

  lemma FillsInOrder(a: Option<real>, b: Option<real>, a': Option<real>, b': Option<real>, x: real, y: real, max: real,
                     mark: real, mark': real)
    requires max > 0.0 && mark <= mark' && 0.0 <= x <= y && BelowOn(a, b, max, mark)
    requires BoundedAt(a', max, mark') && Held(a', max, mark') == Clamp(Held(a, max, mark') + x, 0.0, max)
    requires BoundedAt(b', max, mark') && Held(b', max, mark') == Clamp(Held(b, max, mark') + y, 0.0, max)
    ensures BelowOn(a', b', max, mark')
  {
    HeldDrains(a, max, mark, mark');
    HeldDrains(b, max, mark, mark');
  }

  lemma {:induction false} HeavierRunBelow(tiers: map<string, Tier>, calls: seq<Call>, more: seq<Call>, ref: Ref, tier: Tier)
    requires ProperRun(tiers, calls) && ProperRun(tiers, more) && HeavierRun(calls, more)
    requires Usable(tiers, ref) && tier == TierOf(tiers, ref.kind)
    ensures BelowOn(Get(LocalRun(tiers, calls), BucketKey(ref)), Get(LocalRun(tiers, more), BucketKey(ref)), tier.max,
                    tier.Mark(LastClock(calls)))
  {
    if calls != [] {
      var n := |calls| - 1;
      var small, large := LocalRun(tiers, calls[..n]), LocalRun(tiers, more[..n]);
      HeavierRunBelow(tiers, calls[..n], more[..n], ref, tier);
      assert HeavierCall(calls[n], more[n]);
      CallFills(tiers, small, calls[n], ref, tier, LastClock(calls[..n]));
      CallFills(tiers, large, more[n], ref, tier, LastClock(calls[..n]));
      FillsInOrder(Get(small, BucketKey(ref)), Get(large, BucketKey(ref)),
                   Get(LocalRun(tiers, calls), BucketKey(ref)), Get(LocalRun(tiers, more), BucketKey(ref)),
                   AmountOn(calls[n], ref), AmountOn(more[n], ref), tier.max,
                   tier.Mark(LastClock(calls[..n])), tier.Mark(calls[n].now));
    }
  }

  /** Then every bucket is at least as full in the second run, whenever it is read. */
  lemma HeavierRunIsFuller(tiers: map<string, Tier>, calls: seq<Call>, more: seq<Call>, ref: Ref, now: real)
    requires ProperRun(tiers, calls) && ProperRun(tiers, more) && HeavierRun(calls, more)
    requires Usable(tiers, ref) && LastClock(calls) <= now
    ensures LevelAfter(tiers, calls, ref, now) <= LevelAfter(tiers, more, ref, now)
  {
    var tier := TierOf(tiers, ref.kind);
    HeavierRunBelow(tiers, calls, more, ref, tier);
    MarkMoves(tier, LastClock(calls), now);
    HeldDrains(Get(LocalRun(tiers, calls), BucketKey(ref)), tier.max, tier.Mark(LastClock(calls)), tier.Mark(now));
    HeldDrains(Get(LocalRun(tiers, more), BucketKey(ref)), tier.max, tier.Mark(LastClock(calls)), tier.Mark(now));
  }

  // ---------- the ledger with its sweep ----------

  /** The maps a ledger with limit `max` may go through; each sweep picks its victims freely. */
  ghost predicate LedgerTrace(tiers: map<string, Tier>, calls: seq<Call>, max: nat, trace: seq<Slots>) {
    && |trace| == |calls| + 1
    && trace[0] == map[]
    && forall k :: 0 <= k < |calls| ==> Swept(LocalCall(trace[k], tiers, calls[k]), trace[k + 1], max)
  }

  /** On one bucket the sweep forgets and never invents. */
  lemma {:induction false} SweepOnlyForgets(tiers: map<string, Tier>, calls: seq<Call>, max: nat, trace: seq<Slots>, k: nat,
                                            ref: Ref, tier: Tier)
    requires ProperRun(tiers, calls) && LedgerTrace(tiers, calls, max, trace) && k <= |calls|
    requires Usable(tiers, ref) && tier == TierOf(tiers, ref.kind) && NoRefunds(calls, ref)
    ensures BelowOn(Get(trace[k], BucketKey(ref)), Get(LocalRun(tiers, calls[..k]), BucketKey(ref)), tier.max,
                    tier.Mark(ClockAfter(calls, k)))
  {
    if k > 0 {
      var n, key := k - 1, BucketKey(ref);
      SweepOnlyForgets(tiers, calls, max, trace, n, ref, tier);
      assert calls[..k][..n] == calls[..n];
      assert ChargeOn(calls[n].charges, ref).GetOr(0.0) >= 0.0;
      CallStaysBelow(tiers, trace[n], LocalRun(tiers, calls[..n]), calls[n], ref, tier, ClockAfter(calls, n));
      SweepOnKey(LocalCall(trace[n], tiers, calls[n]), trace[k], max, key);
    }
  }

  lemma CallStaysBelow(tiers: map<string, Tier>, small: Slots, large: Slots, c: Call, ref: Ref, tier: Tier, last: real)
    requires KeysInjective(tiers) && Proper(tiers, c) && Usable(tiers, ref) && tier == TierOf(tiers, ref.kind)
    requires last <= c.now && AmountOn(c, ref) >= 0.0
    requires BelowOn(Get(small, BucketKey(ref)), Get(large, BucketKey(ref)), tier.max, tier.Mark(last))
    ensures BelowOn(Get(LocalCall(small, tiers, c), BucketKey(ref)), Get(LocalCall(large, tiers, c), BucketKey(ref)),
                    tier.max, tier.Mark(c.now))
  {
    var key := BucketKey(ref);
    CallFills(tiers, small, c, ref, tier, last);
    CallFills(tiers, large, c, ref, tier, last);
    FillsInOrder(Get(small, key), Get(large, key),
                 Get(LocalCall(small, tiers, c), key), Get(LocalCall(large, tiers, c), key),
                 AmountOn(c, ref), AmountOn(c, ref), tier.max, tier.Mark(last), tier.Mark(c.now));
  }

  /** At any time, every bucket of the ledger is at most as full as in a store that never evicts, and the ledger holds at
      most `max` entries. */
  lemma EvictionOnlyForgets(tiers: map<string, Tier>, calls: seq<Call>, max: nat, trace: seq<Slots>, k: nat)
    requires ProperRun(tiers, calls) && LedgerTrace(tiers, calls, max, trace) && k <= |calls|
    requires forall ref :: NoRefunds(calls, ref)
    ensures Below(tiers, trace[k], LocalRun(tiers, calls[..k]), ClockAfter(calls, k))
    ensures |trace[k]| <= max
  {
    forall ref | Usable(tiers, ref)
      ensures BelowOn(Get(trace[k], BucketKey(ref)), Get(LocalRun(tiers, calls[..k]), BucketKey(ref)),
                      TierOf(tiers, ref.kind).max, TierOf(tiers, ref.kind).Mark(ClockAfter(calls, k)))
    {
      assert NoRefunds(calls, ref);
      SweepOnlyForgets(tiers, calls, max, trace, k, ref, TierOf(tiers, ref.kind));
    }
    if k > 0 {
      assert Swept(LocalCall(trace[k - 1], tiers, calls[k - 1]), trace[k], max);
    }
  }

  /** The window bound for the ledger: whatever it evicts, a subject within its budget is never shown above `x`. */
  lemma LedgerWithinBudget(tiers: map<string, Tier>, calls: seq<Call>, max: nat, trace: seq<Slots>, ref: Ref, now: real,
                           x: real)
    requires ProperRun(tiers, calls) && LedgerTrace(tiers, calls, max, trace) && Usable(tiers, ref)
    requires NoRefunds(calls, ref) && x >= 0.0 && forall k :: 0 <= k < |calls| ==> calls[k].now <= now
    requires 0.0 <= now && forall k :: 0 <= k < |calls| && ref in calls[k].refs ==>
      ChargedFrom(calls, ref, k) <= x + Leak(TierOf(tiers, ref.kind), calls[k].now, now)
    ensures Held(Get(trace[|calls|], BucketKey(ref)), TierOf(tiers, ref.kind).max, TierOf(tiers, ref.kind).Mark(now)) <= x
  {
    var n, key, tier := |calls|, BucketKey(ref), TierOf(tiers, ref.kind);
    WithinBudget(tiers, calls, ref, now, x);
    SweepOnlyForgets(tiers, calls, max, trace, n, ref, tier);
    assert calls[..n] == calls;
    MarkMoves(tier, ClockAfter(calls, n), now);
    HeldDrains(Get(trace[n], key), tier.max, tier.Mark(ClockAfter(calls, n)), tier.Mark(now));
    HeldDrains(Get(LocalRun(tiers, calls), key), tier.max, tier.Mark(ClockAfter(calls, n)), tier.Mark(now));
  }

  /** Until the limit is exceeded the ledger is the store that never evicts. */
  lemma {:induction false} NoSweepNoLoss(tiers: map<string, Tier>, calls: seq<Call>, max: nat, trace: seq<Slots>, k: nat)
    requires LedgerTrace(tiers, calls, max, trace) && k <= |calls|
    requires forall j :: 0 <= j <= k ==> |LocalRun(tiers, calls[..j])| <= max
    ensures trace[k] == LocalRun(tiers, calls[..k])
  {
    if k > 0 {
      NoSweepNoLoss(tiers, calls, max, trace, k - 1);
      assert calls[..k][..k - 1] == calls[..k - 1];
    }
  }

  // ---------- nothing goes missing in the ledger ----------

  /** One event per call, whether or not it visits the bucket. */
  function CallHistory(calls: seq<Call>, marks: seq<real>, ref: Ref): Past
    requires |marks| == |calls|
  {
    seq(|calls|, k requires 0 <= k < |calls| =>
      Event(marks[k], if ref in calls[k].refs then ChargeOn(calls[k].charges, ref) else None))
  }

  /** After which calls the sweep took the bucket, whoever made the call. */
  function SweptAfter(tiers: map<string, Tier>, calls: seq<Call>, trace: seq<Slots>, key: string): seq<bool>
    requires |trace| == |calls| + 1
  {
    seq(|calls|, k requires 0 <= k < |calls| => key in LocalCall(trace[k], tiers, calls[k]) && key !in trace[k + 1])
  }

  /** Two slots that stand for the same fill from `mark` on. */
  ghost predicate Alike(a: Option<real>, b: Option<real>, max: real, mark: real) {
    BoundedAt(a, max, mark) && BoundedAt(b, max, mark) && Held(a, max, mark) == Held(b, max, mark)
  }

  lemma AlikeLater(a: Option<real>, b: Option<real>, max: real, mark: real, later: real)
    requires max > 0.0 && mark <= later && Alike(a, b, max, mark)
    ensures Alike(a, b, max, later)
  {
    HeldDrains(a, max, mark, later);
    HeldDrains(b, max, mark, later);
  }

  /** An event that charges what the call charges keeps the slots alike. */
  lemma EventKeepsAlike(a: Option<real>, a': Option<real>, b: Option<real>, e: Event, max: real, mark: real)
    requires max > 0.0 && mark <= e.mark && Alike(a, b, max, mark)
    requires BoundedAt(a', max, e.mark) && Held(a', max, e.mark) == Clamp(Held(a, max, e.mark) + e.Amount(), 0.0, max)
    ensures Alike(a', LocalSlot(b, e.At(max)), max, e.mark)
  {
    AlikeLater(a, b, max, mark, e.mark);
    NextFill(b, e.At(max), true);
  }

  lemma SweepOnKey(full: Slots, left: Slots, max: nat, key: string)
    requires Swept(full, left, max)
    ensures Get(left, key) == if key in full && key !in left then None else Get(full, key)
  {}

  /** One call and the sweep after it, on one bucket. */
  lemma CallAndSweep(tiers: map<string, Tier>, m: Slots, left: Slots, c: Call, max: nat, ref: Ref, tier: Tier, last: real,
                     prev: Option<real>, e: Event)
    requires KeysInjective(tiers) && Proper(tiers, c) && Usable(tiers, ref) && tier == TierOf(tiers, ref.kind)
    requires last <= c.now && Alike(Get(m, BucketKey(ref)), prev, tier.max, tier.Mark(last))
    requires e.mark == tier.Mark(c.now) && e.Amount() == AmountOn(c, ref) && Swept(LocalCall(m, tiers, c), left, max)
    ensures var key := BucketKey(ref);
      Alike(Get(left, key),
            if key in LocalCall(m, tiers, c) && key !in left then None else LocalSlot(prev, e.At(tier.max)),
            tier.max, e.mark)
  {
    var key := BucketKey(ref);
    CallFills(tiers, m, c, ref, tier, last);
    EventKeepsAlike(Get(m, key), Get(LocalCall(m, tiers, c), key), prev, e, tier.max, tier.Mark(last));
    SweepOnKey(LocalCall(m, tiers, c), left, max, key);
  }

  function ClockAfter(calls: seq<Call>, k: nat): real
    requires k <= |calls|
  {
    if k == 0 then 0.0 else calls[k - 1].now
  }

  lemma SweptStep(h: Past, swept: seq<bool>, max: real, k: nat)
    requires |swept| == |h| && k < |h|
    ensures AfterSwept(h[..k + 1], swept[..k + 1], max)
         == if swept[k] then None else LocalSlot(AfterSwept(h[..k], swept[..k], max), h[k].At(max))
  {
    assert h[..k + 1][..k] == h[..k] && swept[..k + 1][..k] == swept[..k];
  }

  /** Each bucket of a ledger is, at any time, as full as its call history with the sweeps read off the run. */
  lemma {:induction false} LedgerIsSwept(tiers: map<string, Tier>, calls: seq<Call>, max: nat, trace: seq<Slots>, ref: Ref,
                                         tier: Tier, h: Past, swept: seq<bool>, k: nat)
    requires ProperRun(tiers, calls) && LedgerTrace(tiers, calls, max, trace) && k <= |calls|
    requires Usable(tiers, ref) && tier == TierOf(tiers, ref.kind)
    requires h == CallHistory(calls, MarksOf(tier, calls), ref)
    requires swept == SweptAfter(tiers, calls, trace, BucketKey(ref))
    ensures Alike(Get(trace[k], BucketKey(ref)), AfterSwept(h[..k], swept[..k], tier.max), tier.max,
                  tier.Mark(ClockAfter(calls, k)))
  {
    if k > 0 {
      var n := k - 1;
      LedgerIsSwept(tiers, calls, max, trace, ref, tier, h, swept, n);
      SweptStep(h, swept, tier.max, n);
      LedgerStep(tiers, calls, max, trace, ref, tier, h[n], swept[n], n, AfterSwept(h[..n], swept[..n], tier.max));
    }
  }

  lemma LedgerStep(tiers: map<string, Tier>, calls: seq<Call>, max: nat, trace: seq<Slots>, ref: Ref, tier: Tier, e: Event,
                   swept: bool, n: nat, prev: Option<real>)
    requires ProperRun(tiers, calls) && LedgerTrace(tiers, calls, max, trace) && n < |calls|
    requires Usable(tiers, ref) && tier == TierOf(tiers, ref.kind)
    requires e.mark == tier.Mark(calls[n].now) && e.Amount() == AmountOn(calls[n], ref)
    requires swept <==> BucketKey(ref) in LocalCall(trace[n], tiers, calls[n]) && BucketKey(ref) !in trace[n + 1]
    requires Alike(Get(trace[n], BucketKey(ref)), prev, tier.max, tier.Mark(ClockAfter(calls, n)))
    ensures Alike(Get(trace[n + 1], BucketKey(ref)), if swept then None else LocalSlot(prev, e.At(tier.max)), tier.max,
                  tier.Mark(ClockAfter(calls, n + 1)))
  {
    CallAndSweep(tiers, trace[n], trace[n + 1], calls[n], max, ref, tier, ClockAfter(calls, n), prev, e);
  }

  lemma {:induction false} TotalOfCalls(calls: seq<Call>, marks: seq<real>, ref: Ref, j: nat)
    requires |marks| == |calls| && j <= |calls|
    ensures Total(CallHistory(calls, marks, ref), j) == ChargedFrom(calls, ref, j)
    decreases |calls| - j
  {
    if j < |calls| {
      TotalOfCalls(calls, marks, ref, j + 1);
    }
  }

  /** The books of one bucket of a ledger over a run, read at `now`. */
  function LedgerBooks(tiers: map<string, Tier>, calls: seq<Call>, trace: seq<Slots>, ref: Ref, now: real): Account
    requires |trace| == |calls| + 1
  {
    var tier := TierOf(tiers, ref.kind);
    Books(CallHistory(calls, MarksOf(tier, calls), ref), SweptAfter(tiers, calls, trace, BucketKey(ref)), tier.max,
          tier.Mark(now))
  }

  /** Conservation over every run of the ledger, sweeps by any call included: what was charged to a bucket is what it
      holds, what leaked, what spilled at the cap and what the sweep forgot. */
  lemma LedgerBooksBalance(tiers: map<string, Tier>, calls: seq<Call>, max: nat, trace: seq<Slots>, ref: Ref, now: real)
    requires ProperRun(tiers, calls) && LedgerTrace(tiers, calls, max, trace) && Usable(tiers, ref)
    requires NoRefunds(calls, ref) && LastClock(calls) <= now
    ensures var tier, b := TierOf(tiers, ref.kind), LedgerBooks(tiers, calls, trace, ref, now);
      && b.charged == ChargedFrom(calls, ref, 0)
      && b.charged == Held(Get(trace[|calls|], BucketKey(ref)), tier.max, tier.Mark(now))
                      + b.leaked + b.spilled + b.forgotten
      && b.leaked >= 0.0 && b.spilled >= 0.0 && b.forgotten >= 0.0
  {
    var tier, key := TierOf(tiers, ref.kind), BucketKey(ref);
    var marks, swept := MarksOf(tier, calls), SweptAfter(tiers, calls, trace, key);
    var h := CallHistory(calls, marks, ref);
    LedgerIsSwept(tiers, calls, max, trace, ref, tier, h, swept, |calls|);
    assert h[..|calls|] == h && swept[..|calls|] == swept;
    MarkMoves(tier, LastClock(calls), now);
    AlikeLater(Get(trace[|calls|], key), AfterSwept(h, swept, tier.max), tier.max, tier.Mark(LastClock(calls)),
               tier.Mark(now));
    RunReaches(tier, calls, now);
    BooksOfCalls(calls, marks, swept, ref, tier.max, tier.Mark(now));
  }

  lemma RunReaches(tier: Tier, calls: seq<Call>, now: real)
    requires tier.Enabled() && LastClock(calls) <= now
    requires forall j, k :: 0 <= j < k < |calls| ==> calls[j].now <= calls[k].now
    ensures var marks := MarksOf(tier, calls);
      && (forall j, k :: 0 <= j < k < |marks| ==> marks[j] <= marks[k])
      && forall k :: 0 <= k < |marks| ==> marks[k] <= tier.Mark(now)
  {
    forall k | 0 <= k < |calls| ensures calls[k].now <= now {
      assert k < |calls| - 1 ==> calls[k].now <= calls[|calls| - 1].now;
    }
    MarksReach(tier, calls, now);
  }

  lemma BooksOfCalls(calls: seq<Call>, marks: seq<real>, swept: seq<bool>, ref: Ref, max: real, mark: real)
    requires |marks| == |calls| == |swept| && max > 0.0 && NoRefunds(calls, ref)
    requires forall j, k :: 0 <= j < k < |marks| ==> marks[j] <= marks[k]
    requires forall k :: 0 <= k < |marks| ==> marks[k] <= mark
    ensures var h := CallHistory(calls, marks, ref);
      var b := Books(h, swept, max, mark);
      && b.charged == ChargedFrom(calls, ref, 0)
      && b.charged == Held(AfterSwept(h, swept, max), max, mark) + b.leaked + b.spilled + b.forgotten
      && b.leaked >= 0.0 && b.spilled >= 0.0 && b.forgotten >= 0.0
  {
    var h := CallHistory(calls, marks, ref);
    forall k | 0 <= k < |h| ensures h[k].Amount() >= 0.0 {
      assert ChargeOn(calls[k].charges, ref).GetOr(0.0) >= 0.0;
    }
    NothingGoesMissing(h, swept, max, mark);
    ChargedIsTotal(h, swept, max, mark);
    TotalOfCalls(calls, marks, ref, 0);
  }
}
