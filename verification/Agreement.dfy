/** The two forms of the buckets answer alike: over every run of calls whose clock does not run back,
    and although keys expire in one of them and drained entries are deleted in the other. */
module Agreement {
  import opened Wrappers
  import opened Tiers
  import opened Refs
  import opened Ledgers
  import opened RedisPath

  // ---------- one bucket ----------

  /** At a mark, a ledger slot and a Redis entry stand for the same fill. The entry may be far below the
      mark, or long drained, and the slot absent; `touched` is the mark of the last charging call. */
  ghost predicate Same(slot: Option<real>, o: Option<Entry>, max: real, mark: real, touched: real) {
    && touched <= mark
    && (slot.Some? ==> slot.value <= mark + max)
    && match o
       case None => Held(slot, max, mark) == 0.0
       case Some(e) => e.value <= touched + max && Held(Some(e.value), max, mark) == Held(slot, max, mark)
  }

  /** A key may be gone before the call once a full bucket of its last charge has drained, and may go
      between the commands of a charging call only strictly after that. */
  ghost predicate Timely(o: Option<Entry>, t: Trip, touched: real) {
    && t.at.Ordered()
    && t.at.expire < t.at.first + t.life
    && t.visit.mark > 0.0
    && (o.Some? && !Alive(o, t.at.first) ==> t.visit.mark >= touched + t.visit.max)
    && (o.Some? && t.visit.charge.Some? && Alive(o, t.at.first) && !Alive(o, t.at.expire) ==>
          t.visit.mark > touched + t.visit.max)
  }

  lemma SameLater(slot: Option<real>, o: Option<Entry>, max: real, mark: real, later: real, touched: real)
    requires max > 0.0 && mark <= later && Same(slot, o, max, mark, touched)
    ensures Same(slot, o, max, later, touched)
  {
    HeldDrains(slot, max, mark, later);
    if o.Some? {
      HeldDrains(Some(o.value.value), max, mark, later);
    }
  }

  /** Which disappearances of a key do no harm, told from the value it held before the call: gone before
      INCRBYFLOAT, it must have been drained or its content not matter; gone between INCRBYFLOAT and PEXPIRE, the
      answer must call for a correction, which restores it, or leave nothing to restore. */
  predicate Harmless(o: Option<Entry>, t: Trip)
    requires t.visit.charge.Some?
  {
    var mark, max, c := t.visit.mark, t.visit.max, t.visit.charge.value;
    if o.None? || Alive(o, t.at.expire) then true
    else if !Alive(o, t.at.incr) then o.value.value <= mark || c >= max || o.value.value + c <= mark
    else o.value.value < mark || o.value.value + c > mark + max || o.value.value + c <= mark
  }

  /** A charging call reports what the ledger reports and leaves the same fill behind exactly when the key's
      disappearance, if any, is harmless. */
  lemma ChargeAgreesExactly(slot: Option<real>, o: Option<Entry>, t: Trip, touched: real)
    requires t.visit.max > 0.0 && t.visit.charge.Some? && t.visit.mark > 0.0
    requires t.at.Ordered() && t.at.expire < t.at.first + t.life
    requires Same(slot, o, t.visit.max, t.visit.mark, touched)
    ensures RedisFill(o, t) == LocalFill(slot, t.visit)
            && Same(LocalSlot(slot, t.visit), RedisEntry(o, t), t.visit.max, t.visit.mark, t.visit.mark)
        <==> Harmless(o, t)
  {
    if !Alive(o, t.at.first) {
      GoneBefore(slot, o, t, touched);
    } else if !Alive(o, t.at.incr) {
      GoneBeforeIncrement(slot, o, t, touched);
    } else if !Alive(o, t.at.expire) {
      GoneBeforeExpire(slot, o, t, touched);
    } else {
      assert Charged(o, t) == Entry(o.value.value + t.visit.charge.value, o.value.until);
    }
  }

  lemma GoneBefore(slot: Option<real>, o: Option<Entry>, t: Trip, touched: real)
    requires t.visit.max > 0.0 && t.visit.charge.Some? && !Alive(o, t.at.first)
    requires t.at.Ordered() && t.at.expire < t.at.first + t.life
    requires Same(slot, o, t.visit.max, t.visit.mark, touched)
    ensures RedisFill(o, t) == LocalFill(slot, t.visit)
        <==> o.None? || o.value.value <= t.visit.mark || t.visit.charge.value >= t.visit.max
             || o.value.value + t.visit.charge.value <= t.visit.mark
    ensures Same(LocalSlot(slot, t.visit), RedisEntry(o, t), t.visit.max, t.visit.mark, t.visit.mark)
        <==> RedisFill(o, t) == LocalFill(slot, t.visit)
  {
    assert Charged(o, t) == Entry(t.visit.mark + t.visit.charge.value, Some(t.at.first + t.life));
  }

  /** Gone between SETNX and INCRBYFLOAT: the increment starts from nothing and the answer is always corrected, to
      the charge alone. */
  lemma GoneBeforeIncrement(slot: Option<real>, o: Option<Entry>, t: Trip, touched: real)
    requires t.visit.max > 0.0 && t.visit.charge.Some? && t.visit.mark > 0.0
    requires Alive(o, t.at.first) && !Alive(o, t.at.incr)
    requires Same(slot, o, t.visit.max, t.visit.mark, touched)
    ensures RedisEntry(o, t).Some?
    ensures RedisFill(o, t) == LocalFill(slot, t.visit)
        <==> o.value.value <= t.visit.mark || t.visit.charge.value >= t.visit.max
             || o.value.value + t.visit.charge.value <= t.visit.mark
    ensures Same(LocalSlot(slot, t.visit), RedisEntry(o, t), t.visit.max, t.visit.mark, t.visit.mark)
        <==> RedisFill(o, t) == LocalFill(slot, t.visit)
  {
    assert Charged(o, t) == Entry(t.visit.charge.value, None);
  }

  /** Gone between INCRBYFLOAT and PEXPIRE: the answer is right in any case, but the key comes back only with a
      correction. */
  lemma GoneBeforeExpire(slot: Option<real>, o: Option<Entry>, t: Trip, touched: real)
    requires t.visit.max > 0.0 && t.visit.charge.Some? && t.at.Ordered()
    requires Alive(o, t.at.incr) && !Alive(o, t.at.expire)
    requires Same(slot, o, t.visit.max, t.visit.mark, touched)
    ensures RedisFill(o, t) == LocalFill(slot, t.visit)
    ensures RedisEntry(o, t).Some?
        <==> o.value.value < t.visit.mark || o.value.value + t.visit.charge.value > t.visit.mark + t.visit.max
    ensures Same(LocalSlot(slot, t.visit), RedisEntry(o, t), t.visit.max, t.visit.mark, t.visit.mark)
        <==> RedisEntry(o, t).Some? || RedisFill(o, t) == 0.0
  {
    assert Charged(o, t) == Entry(o.value.value + t.visit.charge.value, o.value.until);
  }

  /** A key that keeps its time to live is harmless when it goes: before the call from its lifetime on, within the
      call strictly later. */
  lemma TimelyIsHarmless(slot: Option<real>, o: Option<Entry>, t: Trip, touched: real)
    requires t.visit.charge.Some? && Same(slot, o, t.visit.max, t.visit.mark, touched) && Timely(o, t, touched)
    ensures Harmless(o, t)
  {}

  /** At exactly its lifetime, a key that goes within the call does harm in one case alone: it was full after its
      last charge, goes after the increment, and the new charge is one the bucket could hold. */
  lemma AtExactlyTheLifetime(slot: Option<real>, o: Option<Entry>, t: Trip, touched: real)
    requires t.visit.charge.Some? && Same(slot, o, t.visit.max, t.visit.mark, touched) && t.at.Ordered()
    requires Alive(o, t.at.first) && !Alive(o, t.at.expire) && t.visit.mark == touched + t.visit.max
    ensures Harmless(o, t)
        <==> !(o.value.value == touched + t.visit.max && Alive(o, t.at.incr) && 0.0 < t.visit.charge.value <= t.visit.max)
  {}

  /** One call keeps the two forms in step and both report the same fill. */
  lemma CallAgrees(slot: Option<real>, o: Option<Entry>, t: Trip, mark: real, touched: real)
    requires t.visit.max > 0.0 && mark <= t.visit.mark
    requires Same(slot, o, t.visit.max, mark, touched) && Timely(o, t, touched)
    ensures RedisFill(o, t) == LocalFill(slot, t.visit)
    ensures Same(LocalSlot(slot, t.visit), RedisEntry(o, t), t.visit.max, t.visit.mark,
                 if t.visit.charge.Some? then t.visit.mark else touched)
  {
    var v := t.visit;
    SameLater(slot, o, v.max, mark, v.mark, touched);
    if v.charge.Some? {
      TimelyIsHarmless(slot, o, t, touched);
      ChargeAgreesExactly(slot, o, t, touched);
    }
  }

  /** At exactly the lifetime the margin is gone: a key that expires between INCRBYFLOAT and PEXPIRE takes
      the new charge with it, and the next reading differs. */
  lemma ExactLifetimeIsTooEarly()
    ensures exists slot: Option<real>, o: Option<Entry>, t: Trip, touched: real ::
      && Same(slot, o, t.visit.max, touched, touched) && t.at.Ordered() && t.at.expire < t.at.first + t.life
      && o.Some? && Alive(o, t.at.first) && !Alive(o, t.at.expire)
      && t.visit.mark == touched + t.visit.max
      && RedisEntry(o, t) == None
      && Held(LocalSlot(slot, t.visit), t.visit.max, t.visit.mark) > 0.0
  {
    var o := Some(Entry(200.0, Some(201.0)));
    var t := Trip(Visit("k", 100.0, 200.0, Some(50.0)), 100.0, Stamps(200.0, 200.0, 201.0, 201.0));
    assert Same(Some(200.0), o, t.visit.max, 100.0, 100.0);
    assert Piped(o, t) == None;
    assert RedisEntry(o, t) == None;
    assert LocalSlot(Some(200.0), t.visit) == Some(250.0);
    assert Held(LocalSlot(Some(200.0), t.visit), t.visit.max, t.visit.mark) > 0.0;
  }

  // ---------- a run of calls over all buckets ----------

  /** One call of the store: the clock reading, the live charges, the buckets it answers for, and the
      server times at which Redis ran its commands. */
  datatype Call = Call(now: real, charges: seq<Charge>, refs: seq<Ref>, at: seq<Stamps>)

  /** The two stores, and for each key the clock reading of the last call that charged it. */
  datatype Stores = Stores(local: Slots, remote: Keyspace, touched: map<string, real>)

  function LocalCall(m: Slots, tiers: map<string, Tier>, c: Call): Slots {
    Visited(m, VisitsOf(tiers, c.charges, c.refs, c.now))
  }

  function RemoteCall(m: Keyspace, tiers: map<string, Tier>, c: Call): Keyspace
    requires |c.at| == |c.refs|
  {
    FixAll(m, TripsOf(tiers, c.charges, c.refs, c.now, c.at), |c.refs|)
  }

  function TouchedBy(touched: map<string, real>, c: Call): map<string, real> {
    touched + map r | r in c.refs && r in RefsIn(c.charges) :: BucketKey(r) := c.now
  }

  function Next(tiers: map<string, Tier>, s: Stores, c: Call): Stores
    requires |c.at| == |c.refs|
  {
    Stores(LocalCall(s.local, tiers, c), RemoteCall(s.remote, tiers, c), TouchedBy(s.touched, c))
  }

  /** The levels the two forms report for the buckets of one call. */
  ghost predicate LevelsAgree(tiers: map<string, Tier>, s: Stores, c: Call)
    requires |c.at| == |c.refs|
  {
    forall i :: 0 <= i < |c.refs| ==>
      VisitFill(s.local, VisitsOf(tiers, c.charges, c.refs, c.now), i)
      == FillAt(s.remote, TripsOf(tiers, c.charges, c.refs, c.now, c.at), i)
  }

  ghost predicate KeysInjective(tiers: map<string, Tier>) {
    forall a, b :: Usable(tiers, a) && Usable(tiers, b) && BucketKey(a) == BucketKey(b) ==> a == b
  }

  ghost predicate InStep(tiers: map<string, Tier>, s: Stores, last: real) {
    forall ref :: Usable(tiers, ref) ==> StepOn(tiers, s, last, ref)
  }

  ghost predicate StepOn(tiers: map<string, Tier>, s: Stores, last: real, ref: Ref) {
    var key, tier := BucketKey(ref), TierOf(tiers, ref.kind);
    Same(Get(s.local, key), Get(s.remote, key), tier.max, tier.Mark(last),
         tier.Mark(Get(s.touched, key).GetOr(last)))
  }

  /** The clock does not run back and reads after its epoch, the buckets are the usable ones without
      repetition, the pipeline takes less than a lifetime, and a key is seen gone at the start of a call
      only if its lifetime has passed on the client's clock, mid-call only if strictly so. */
  ghost predicate WellTimed(tiers: map<string, Tier>, s: Stores, last: real, c: Call) {
    && last <= c.now && 0.0 < c.now
    && |c.at| == |c.refs|
    && Distinct(c.refs)
    && forall i :: 0 <= i < |c.refs| ==>
         && Usable(tiers, c.refs[i])
         && TimelyOn(TierOf(tiers, c.refs[i].kind), Get(s.remote, BucketKey(c.refs[i])), c.at[i], c.now,
                     Get(s.touched, BucketKey(c.refs[i])), c.refs[i] in RefsIn(c.charges))
  }

  ghost predicate TimelyOn(tier: Tier, o: Option<Entry>, at: Stamps, now: real, touched: Option<real>, charged: bool) {
    && at.Ordered() && at.expire < at.first + tier.Lifetime()
    && (o.Some? && !Alive(o, at.first) ==> touched.Some? && now >= touched.value + tier.Lifetime())
    && (o.Some? && charged && Alive(o, at.first) && !Alive(o, at.expire) ==>
          touched.Some? && now > touched.value + tier.Lifetime())
  }

  // ---------- a run keeps the two stores in step ----------

  lemma Apart(tiers: map<string, Tier>, refs: seq<Ref>)
    requires KeysInjective(tiers) && Distinct(refs)
    requires forall i :: 0 <= i < |refs| ==> Usable(tiers, refs[i])
    ensures forall i, j :: 0 <= i < j < |refs| ==> BucketKey(refs[i]) != BucketKey(refs[j])
    ensures forall i, ref :: 0 <= i < |refs| && Usable(tiers, ref) && ref !in refs ==>
              BucketKey(refs[i]) != BucketKey(ref)
  {}

  /** A bucket the call answers for. */
  lemma VisitedInStep(tiers: map<string, Tier>, s: Stores, last: real, c: Call, i: nat)
    requires KeysInjective(tiers) && WellTimed(tiers, s, last, c) && i < |c.refs|
    requires StepOn(tiers, s, last, c.refs[i])
    ensures var ref := c.refs[i];
      && StepOn(tiers, Next(tiers, s, c), c.now, ref)
      && VisitFill(s.local, VisitsOf(tiers, c.charges, c.refs, c.now), i)
         == FillAt(s.remote, TripsOf(tiers, c.charges, c.refs, c.now, c.at), i)
  {
    var ref := c.refs[i];
    var key, tier := BucketKey(ref), TierOf(tiers, ref.kind);
    var visits, trips := VisitsOf(tiers, c.charges, c.refs, c.now), TripsOf(tiers, c.charges, c.refs, c.now, c.at);
    Apart(tiers, c.refs);
    assert KeysApart(visits) && TripsApart(trips);
    VisitedAt(s.local, visits, i);
    RedisAt(s.remote, trips, |trips|, i);
    BucketInStep(tier, Get(s.local, key), Get(s.remote, key), trips[i], last, c.now, Get(s.touched, key),
                 ref in RefsIn(c.charges));
    TouchedAt(tiers, s.touched, c, i);
  }

  lemma TouchedAt(tiers: map<string, Tier>, touched: map<string, real>, c: Call, i: nat)
    requires KeysInjective(tiers) && Distinct(c.refs) && i < |c.refs|
    requires forall j :: 0 <= j < |c.refs| ==> Usable(tiers, c.refs[j])
    ensures Get(TouchedBy(touched, c), BucketKey(c.refs[i]))
      == if c.refs[i] in RefsIn(c.charges) then Some(c.now) else Get(touched, BucketKey(c.refs[i]))
  {
    Apart(tiers, c.refs);
  }

  /** The same, on the slot and the entry alone. */
  lemma BucketInStep(tier: Tier, slot: Option<real>, o: Option<Entry>, t: Trip, last: real, now: real,
                     touched: Option<real>, charged: bool)
    requires tier.Enabled() && last <= now && 0.0 < now
    requires t.visit.max == tier.max && t.visit.mark == tier.Mark(now) && t.life == tier.Lifetime()
    requires t.visit.charge.Some? == charged
    requires Same(slot, o, tier.max, tier.Mark(last), tier.Mark(touched.GetOr(last)))
    requires TimelyOn(tier, o, t.at, now, touched, charged)
    ensures RedisFill(o, t) == LocalFill(slot, t.visit)
    ensures Same(LocalSlot(slot, t.visit), RedisEntry(o, t), tier.max, tier.Mark(now),
                 tier.Mark((if charged then Some(now) else touched).GetOr(now)))
  {
    MarkMoves(tier, last, now);
    MarkMoves(tier, 0.0, now);
    var since := touched.GetOr(last);
    MarkMoves(tier, since, now);
    MarkMoves(tier, since + tier.Lifetime(), now);
    assert tier.Mark(0.0) == 0.0;
    CallAgrees(slot, o, t, tier.Mark(last), tier.Mark(since));
  }

  /** A bucket the call does not mention. */
  lemma UnvisitedInStep(tiers: map<string, Tier>, s: Stores, last: real, c: Call, ref: Ref)
    requires KeysInjective(tiers) && WellTimed(tiers, s, last, c)
    requires Usable(tiers, ref) && ref !in c.refs && StepOn(tiers, s, last, ref)
    ensures StepOn(tiers, Next(tiers, s, c), c.now, ref)
  {
    var key, tier := BucketKey(ref), TierOf(tiers, ref.kind);
    var visits, trips := VisitsOf(tiers, c.charges, c.refs, c.now), TripsOf(tiers, c.charges, c.refs, c.now, c.at);
    Apart(tiers, c.refs);
    VisitedElsewhere(s.local, visits, key);
    RedisElsewhere(s.remote, trips, key);
    assert Get(TouchedBy(s.touched, c), key) == Get(s.touched, key);
    var since := Get(s.touched, key).GetOr(last);
    MarkMoves(tier, last, c.now);
    SameLater(Get(s.local, key), Get(s.remote, key), tier.max, tier.Mark(last), tier.Mark(c.now), tier.Mark(since));
  }

  lemma CallKeepsStep(tiers: map<string, Tier>, s: Stores, last: real, c: Call)
    requires KeysInjective(tiers) && InStep(tiers, s, last) && WellTimed(tiers, s, last, c)
    ensures InStep(tiers, Next(tiers, s, c), c.now)
    ensures LevelsAgree(tiers, s, c)
  {
    forall ref | Usable(tiers, ref) ensures StepOn(tiers, Next(tiers, s, c), c.now, ref) {
      if ref in c.refs {
        var i :| 0 <= i < |c.refs| && c.refs[i] == ref;
        VisitedInStep(tiers, s, last, c, i);
      } else {
        UnvisitedInStep(tiers, s, last, c, ref);
      }
    }
    forall i | 0 <= i < |c.refs|
      ensures VisitFill(s.local, VisitsOf(tiers, c.charges, c.refs, c.now), i)
           == FillAt(s.remote, TripsOf(tiers, c.charges, c.refs, c.now, c.at), i)
    {
      VisitedInStep(tiers, s, last, c, i);
    }
  }

  const EMPTY := Stores(map[], map[], map[])

  function RunOf(tiers: map<string, Tier>, calls: seq<Call>): Stores {
    if calls == [] then EMPTY
    else
      var c := calls[|calls| - 1];
      if |c.at| == |c.refs| then Next(tiers, RunOf(tiers, calls[..|calls| - 1]), c) else EMPTY
  }

  function LastClock(calls: seq<Call>): real {
    if calls == [] then 0.0 else calls[|calls| - 1].now
  }

  ghost predicate RunTimed(tiers: map<string, Tier>, calls: seq<Call>) {
    forall k :: 0 <= k < |calls| ==>
      WellTimed(tiers, RunOf(tiers, calls[..k]), LastClock(calls[..k]), calls[k])
  }

  lemma {:induction false} RunInStep(tiers: map<string, Tier>, calls: seq<Call>)
    requires KeysInjective(tiers) && RunTimed(tiers, calls)
    ensures InStep(tiers, RunOf(tiers, calls), LastClock(calls))
  {
    if calls != [] {
      var n := |calls| - 1;
      assert forall k :: 0 <= k < n ==> calls[..n][..k] == calls[..k] && calls[..n][k] == calls[k];
      RunInStep(tiers, calls[..n]);
      CallKeepsStep(tiers, RunOf(tiers, calls[..n]), LastClock(calls[..n]), calls[n]);
    }
  }

  /** Main result: in every run the two forms report the same levels, call by call. */
  lemma RunsAgree(tiers: map<string, Tier>, calls: seq<Call>, k: nat)
    requires KeysInjective(tiers) && RunTimed(tiers, calls) && k < |calls|
    ensures LevelsAgree(tiers, RunOf(tiers, calls[..k]), calls[k])
  {
    assert forall j :: 0 <= j < k ==> calls[..k][..j] == calls[..j] && calls[..k][j] == calls[j];
    RunInStep(tiers, calls[..k]);
    CallKeepsStep(tiers, RunOf(tiers, calls[..k]), LastClock(calls[..k]), calls[k]);
  }

  // ---------- calls whose commands run at the clock reading ----------

  ghost predicate Prompt(tiers: map<string, Tier>, c: Call) {
    && Distinct(c.refs) && |c.at| == |c.refs|
    && forall i :: 0 <= i < |c.refs| ==> Usable(tiers, c.refs[i]) && c.at[i] == Stamps(c.now, c.now, c.now, c.now)
  }

  ghost predicate Clocked(calls: seq<Call>) {
    forall k :: 0 <= k < |calls| ==> LastClock(calls[..k]) <= calls[k].now && 0.0 < calls[k].now
  }

  /** Every key carries the deadline its last charging call gave it. */
  ghost predicate Dated(tiers: map<string, Tier>, s: Stores) {
    forall ref :: Usable(tiers, ref) ==> DatedAt(tiers, s, ref)
  }

  ghost predicate DatedOn(tier: Tier, o: Option<Entry>, touched: Option<real>) {
    o.Some? ==> touched.Some? && o.value.until == Some(touched.value + tier.Lifetime())
  }

  lemma PromptIsTimed(tiers: map<string, Tier>, s: Stores, last: real, c: Call)
    requires Prompt(tiers, c) && Dated(tiers, s) && last <= c.now && 0.0 < c.now
    ensures WellTimed(tiers, s, last, c)
  {
    forall i | 0 <= i < |c.refs|
      ensures TimelyOn(TierOf(tiers, c.refs[i].kind), Get(s.remote, BucketKey(c.refs[i])), c.at[i], c.now,
                       Get(s.touched, BucketKey(c.refs[i])), c.refs[i] in RefsIn(c.charges))
    {
      assert TierOf(tiers, c.refs[i].kind).Lifetime() > 0.0;
    }
  }

  ghost predicate DatedAt(tiers: map<string, Tier>, s: Stores, ref: Ref) {
    DatedOn(TierOf(tiers, ref.kind), Get(s.remote, BucketKey(ref)), Get(s.touched, BucketKey(ref)))
  }

  lemma VisitedStaysDated(tiers: map<string, Tier>, s: Stores, c: Call, i: nat)
    requires KeysInjective(tiers) && Prompt(tiers, c) && i < |c.refs| && DatedAt(tiers, s, c.refs[i])
    ensures DatedAt(tiers, Next(tiers, s, c), c.refs[i])
  {
    var trips := TripsOf(tiers, c.charges, c.refs, c.now, c.at);
    var ref := c.refs[i];
    var key, tier := BucketKey(ref), TierOf(tiers, ref.kind);
    Apart(tiers, c.refs);
    assert TripsApart(trips);
    RedisAt(s.remote, trips, |trips|, i);
    TouchedAt(tiers, s.touched, c, i);
    EntryIsDated(tier, Get(s.remote, key), trips[i], c.now, Get(s.touched, key), ref in RefsIn(c.charges));
  }

  lemma UnvisitedStaysDated(tiers: map<string, Tier>, s: Stores, c: Call, ref: Ref)
    requires KeysInjective(tiers) && Prompt(tiers, c) && Usable(tiers, ref) && ref !in c.refs && DatedAt(tiers, s, ref)
    ensures DatedAt(tiers, Next(tiers, s, c), ref)
  {
    Apart(tiers, c.refs);
    RedisElsewhere(s.remote, TripsOf(tiers, c.charges, c.refs, c.now, c.at), BucketKey(ref));
  }

  lemma PromptStaysDated(tiers: map<string, Tier>, s: Stores, c: Call)
    requires KeysInjective(tiers) && Prompt(tiers, c) && Dated(tiers, s)
    ensures Dated(tiers, Next(tiers, s, c))
  {
    forall ref | Usable(tiers, ref) ensures DatedAt(tiers, Next(tiers, s, c), ref) {
      if ref in c.refs {
        var i :| 0 <= i < |c.refs| && c.refs[i] == ref;
        VisitedStaysDated(tiers, s, c, i);
      } else {
        UnvisitedStaysDated(tiers, s, c, ref);
      }
    }
  }

  lemma EntryIsDated(tier: Tier, o: Option<Entry>, t: Trip, now: real, touched: Option<real>, charged: bool)
    requires tier.Enabled() && t.life == tier.Lifetime() && t.at == Stamps(now, now, now, now)
    requires t.visit.charge.Some? == charged && DatedOn(tier, o, touched)
    ensures DatedOn(tier, RedisEntry(o, t), if charged then Some(now) else touched)
  {
    assert tier.Lifetime() > 0.0;
  }

  ghost predicate PromptRun(tiers: map<string, Tier>, calls: seq<Call>) {
    Clocked(calls) && forall k :: 0 <= k < |calls| ==> Prompt(tiers, calls[k])
  }

  lemma RunStep(tiers: map<string, Tier>, calls: seq<Call>, k: nat)
    requires k < |calls| && |calls[k].at| == |calls[k].refs|
    ensures RunOf(tiers, calls[..k + 1]) == Next(tiers, RunOf(tiers, calls[..k]), calls[k])
  {
    assert calls[..k + 1][..k] == calls[..k];
  }

  lemma {:induction false} PromptRunIsDated(tiers: map<string, Tier>, calls: seq<Call>, k: nat)
    requires KeysInjective(tiers) && PromptRun(tiers, calls) && k <= |calls|
    ensures Dated(tiers, RunOf(tiers, calls[..k]))
  {
    if k > 0 {
      PromptRunIsDated(tiers, calls, k - 1);
      assert Prompt(tiers, calls[k - 1]);
      RunStep(tiers, calls, k - 1);
      PromptStaysDated(tiers, RunOf(tiers, calls[..k - 1]), calls[k - 1]);
    }
  }

  lemma PromptRunIsTimed(tiers: map<string, Tier>, calls: seq<Call>)
    requires KeysInjective(tiers) && PromptRun(tiers, calls)
    ensures RunTimed(tiers, calls)
  {
    forall k | 0 <= k < |calls|
      ensures WellTimed(tiers, RunOf(tiers, calls[..k]), LastClock(calls[..k]), calls[k])
    {
      PromptRunIsDated(tiers, calls, k);
      PromptIsTimed(tiers, RunOf(tiers, calls[..k]), LastClock(calls[..k]), calls[k]);
    }
  }

  /** With no latency nothing has to be supposed about expiry: the time to live itself hides it. */
  lemma PromptRunsAgree(tiers: map<string, Tier>, calls: seq<Call>, k: nat)
    requires KeysInjective(tiers) && PromptRun(tiers, calls) && k < |calls|
    ensures Prompt(tiers, calls[k]) && LevelsAgree(tiers, RunOf(tiers, calls[..k]), calls[k])
  {
    PromptRunIsTimed(tiers, calls);
    RunsAgree(tiers, calls, k);
  }
}
