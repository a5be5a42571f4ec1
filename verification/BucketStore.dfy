/** The entry point of the buckets: it drops dead charges, gathers the buckets to answer for, and turns to
    Redis or to the in-memory ledger. */
module BucketStore {
  import opened Wrappers
  import opened Tiers
  import opened Refs
  import opened Ledgers
  import opened RedisPath

  class Store {
    const client: Redis?
    const local: Ledger

    constructor (client: Redis?)
      ensures this.client == client && fresh(local)
      ensures local.m == map[] && local.max == 100000
    {
      this.client := client;
      this.local := new Ledger(DEFAULT_MAX);
    }

    /** `clock` tells at which server times Redis runs the commands on each bucket. */
    method Apply(tiers: map<string, Tier>, charges: seq<Charge>, queries: seq<Ref>, now: real, clock: Ref -> Stamps)
      returns (levels: seq<Level>, ghost refs: seq<Ref>)
      modifies if client == null then {local as object} else {client as object}
      ensures IsUnion(refs, Wanted(tiers, LiveOf(tiers, charges), queries))
      ensures ForBuckets(levels, refs)
      ensures forall c | c in charges && c.add != 0.0 && c.ref.key != "" && c.ref.kind in tiers
                         && tiers[c.ref.kind].max > 0.0 && tiers[c.ref.kind].loss > 0.0 ::
                exists i :: 0 <= i < |levels| && levels[i].ref == c.ref
      ensures forall q | q in queries && q.key != "" && q.kind in tiers
                         && tiers[q.kind].max > 0.0 && tiers[q.kind].loss > 0.0 ::
                exists i :: 0 <= i < |levels| && levels[i].ref == q
      ensures forall i :: 0 <= i < |levels| ==>
                && levels[i].ref.key != "" && levels[i].ref.kind in tiers
                && tiers[levels[i].ref.kind].max > 0.0 && tiers[levels[i].ref.kind].loss > 0.0
                && (levels[i].ref in queries || exists c :: c in charges && c.ref == levels[i].ref && c.add != 0.0)
      ensures forall i, j :: 0 <= i < j < |levels| ==> levels[i].ref != levels[j].ref
      ensures client == null && refs != [] ==>
        LedgerAnswered(tiers, LiveOf(tiers, charges), refs, now, levels, old(local.m), local.m, local.max)
      ensures client != null && refs != [] ==>
        RedisAnswered(tiers, LiveOf(tiers, charges), refs, now, clock, levels, old(client.m), client.m)
      ensures refs == [] ==> unchanged(this.local) && (client != null ==> client.m == old(client.m))
    {
      var live := Live(tiers, charges);
      var buckets := RefUnion(live, queries, tiers);
      refs := buckets;
      ChargedIsAnswered(tiers, charges, queries, refs);
      if buckets == [] {
        return [], [];
      }
      if client == null {
        levels := AskLedger(local, tiers, live, buckets, now);
      } else {
        levels := AskRedis(client, tiers, live, buckets, now, clock);
      }
    }
  }

  /** Every non-zero charge with a key and a tier that can hold and lose something reaches its bucket, every such read
      is answered, and nothing else is. */
  lemma ChargedIsAnswered(tiers: map<string, Tier>, charges: seq<Charge>, queries: seq<Ref>, refs: seq<Ref>)
    requires IsUnion(refs, Wanted(tiers, LiveOf(tiers, charges), queries))
    ensures forall c | c in charges && c.add != 0.0 && c.ref.key != "" && c.ref.kind in tiers
                       && tiers[c.ref.kind].max > 0.0 && tiers[c.ref.kind].loss > 0.0 :: c.ref in refs
    ensures forall q | q in queries && q.key != "" && q.kind in tiers
                       && tiers[q.kind].max > 0.0 && tiers[q.kind].loss > 0.0 :: q in refs
    ensures forall r :: r in refs ==>
              && r.key != "" && r.kind in tiers && tiers[r.kind].max > 0.0 && tiers[r.kind].loss > 0.0
              && (r in queries || exists c :: c in charges && c.ref == r && c.add != 0.0)
    ensures Distinct(refs)
  {
    var live := LiveOf(tiers, charges);
    forall c ensures c in live <==> c in charges && IsLive(tiers, c) {
      LiveMembers(tiers, charges, c);
    }
    forall c | c in live ensures c.ref in RefsIn(live) {}
    AscendingIsDistinct(refs);
  }

  lemma ChargedExactly(tiers: map<string, Tier>, charges: seq<Charge>, ref: Ref)
    requires TierOf(tiers, ref.kind).Enabled()
    ensures ChargeOn(LiveOf(tiers, charges), ref)
         == if exists c :: c in charges && c.ref == ref && c.add != 0.0 then Some(SumOf(charges, ref)) else None
  {
    var live := LiveOf(tiers, charges);
    forall c ensures c in live <==> c in charges && IsLive(tiers, c) {
      LiveMembers(tiers, charges, c);
    }
    LiveKeepsSums(tiers, charges, ref);
    if c :| c in charges && c.ref == ref && c.add != 0.0 {
      assert c in live;
    }
  }

  lemma UnionIsUsable(tiers: map<string, Tier>, live: seq<Charge>, queries: seq<Ref>, refs: seq<Ref>, i: nat)
    requires IsUnion(refs, Wanted(tiers, live, queries)) && i < |refs|
    ensures Usable(tiers, refs[i])
  {
    assert refs[i] in refs;
  }

  lemma VisitOfCall(tiers: map<string, Tier>, live: seq<Charge>, refs: seq<Ref>, now: real, i: nat)
    returns (visits: seq<Visit>, v: Visit)
    requires forall j, k :: 0 <= j < k < |refs| ==> BucketKey(refs[j]) != BucketKey(refs[k])
    requires i < |refs|
    ensures visits == VisitsOf(tiers, live, refs, now) && KeysApart(visits)
    ensures |visits| == |refs| && v == visits[i] == VisitOf(tiers, live, refs[i], now)
  {
    visits, v := VisitsOf(tiers, live, refs, now), VisitOf(tiers, live, refs[i], now);
  }

  lemma VisitKnown(tiers: map<string, Tier>, charges: seq<Charge>, ref: Ref, now: real, tier: Tier, key: string, mark: real,
                   v: Visit, charged: bool)
    requires ref.kind in tiers && tier == tiers[ref.kind] && tier.Enabled()
    requires key == "cnt:bkt:" + ref.kind + ":" + ref.key && mark == tier.loss / 100.0 * tier.max * now
    requires v == VisitOf(tiers, LiveOf(tiers, charges), ref, now)
    requires charged <==> exists c :: c in charges && c.ref == ref && c.add != 0.0
    ensures v == Visit(key, tier.max, mark, if charged then Some(SumOf(charges, ref)) else None)
  {
    ChargedExactly(tiers, charges, ref);
    assert tier.Mark(now) == tier.loss / 100.0 * tier.max * now;
  }

  /** What a call on the ledger reports of a bucket and leaves in it, in numbers. A bucket leaks `loss` percent of its
      capacity a second; what it still holds, raised by the sum of its charges and kept between empty and full, is
      reported, and stored for a charged bucket. With room for the new entries nothing is swept, and otherwise a
      bucket that is still there holds the same. */
  lemma LedgerCall(tiers: map<string, Tier>, charges: seq<Charge>, queries: seq<Ref>, refs: seq<Ref>, now: real,
                   levels: seq<Level>, before: Slots, after: Slots, max: nat, i: nat, tier: Tier, key: string, mark: real,
                   held: real, charged: bool, fill: real)
    requires IsUnion(refs, Wanted(tiers, LiveOf(tiers, charges), queries))
    requires LedgerAnswered(tiers, LiveOf(tiers, charges), refs, now, levels, before, after, max)
    requires forall j, k :: 0 <= j < k < |refs| ==> BucketKey(refs[j]) != BucketKey(refs[k])
    requires i < |refs| && refs[i].kind in tiers && tier == tiers[refs[i].kind]
    requires key == "cnt:bkt:" + refs[i].kind + ":" + refs[i].key
    requires mark == tier.loss / 100.0 * tier.max * now
    requires key !in before ==> held == 0.0
    requires key in before ==>
      var left := before[key] - mark; held == if left < 0.0 then 0.0 else if left > tier.max then tier.max else left
    requires charged <==> exists c :: c in charges && c.ref == refs[i] && c.add != 0.0
    requires !charged ==> fill == held
    requires charged ==>
      var sum := held + SumOf(charges, refs[i]);
      fill == if sum < 0.0 then 0.0 else if sum > tier.max then tier.max else sum
    ensures |levels| == |refs| && tier.max > 0.0 && levels[i] == Level(refs[i], fill, fill / tier.max * 100.0)
    ensures key in after || |before| + |refs| <= max ==>
      if charged then key in after && after[key] == fill + mark
      else if fill <= 0.0 then key !in after
      else key in before && key in after && after[key] == before[key]
  {
    UnionIsUsable(tiers, LiveOf(tiers, charges), queries, refs, i);
    var visits, v := VisitOfCall(tiers, LiveOf(tiers, charges), refs, now, i);
    VisitKnown(tiers, charges, refs[i], now, tier, key, mark, v, charged);
    LedgerVisit(refs, levels, before, after, max, visits, i, v, held, fill);
  }

  lemma LedgerVisit(refs: seq<Ref>, levels: seq<Level>, before: Slots, after: Slots, max: nat, visits: seq<Visit>, i: nat,
                    v: Visit, held: real, fill: real)
    requires LocallyReported(levels, refs, visits, before, |refs|) && Swept(Visited(before, visits), after, max)
    requires KeysApart(visits) && i < |refs| && v == visits[i] && v.max > 0.0
    requires v.key !in before ==> held == 0.0
    requires v.key in before ==>
      var left := before[v.key] - v.mark; held == if left < 0.0 then 0.0 else if left > v.max then v.max else left
    requires v.charge.None? ==> fill == held
    requires v.charge.Some? ==>
      var sum := held + v.charge.value; fill == if sum < 0.0 then 0.0 else if sum > v.max then v.max else sum
    ensures |levels| == |refs| && levels[i] == Level(refs[i], fill, fill / v.max * 100.0)
    ensures v.key in after || |before| + |refs| <= max ==>
      if v.charge.Some? then v.key in after && after[v.key] == fill + v.mark
      else if fill <= 0.0 then v.key !in after
      else v.key in before && v.key in after && after[v.key] == before[v.key]
  {
    var slot := Get(before, v.key);
    VisitedAt(before, visits, i);
    VisitedGrows(before, visits);
    VisitInNumbers(slot, v, held, fill);
    assert Get(Visited(before, visits), v.key) == LocalSlot(slot, v);
    assert v.key in after || |before| + |refs| <= max ==> Get(after, v.key) == LocalSlot(slot, v);
  }

  /** One level for each bucket, in order. */
  ghost predicate ForBuckets(levels: seq<Level>, refs: seq<Ref>) {
    |levels| == |refs| && forall i :: 0 <= i < |refs| ==> levels[i].ref == refs[i]
  }

  ghost predicate LedgerAnswered(tiers: map<string, Tier>, live: seq<Charge>, refs: seq<Ref>, now: real,
                                 levels: seq<Level>, before: Slots, after: Slots, max: nat) {
    var visits := VisitsOf(tiers, live, refs, now);
    LocallyReported(levels, refs, visits, before, |refs|) && Swept(Visited(before, visits), after, max)
  }

  ghost predicate RedisAnswered(tiers: map<string, Tier>, live: seq<Charge>, refs: seq<Ref>, now: real,
                                clock: Ref -> Stamps, levels: seq<Level>, before: Keyspace, after: Keyspace) {
    var trips := TripsOf(tiers, live, refs, now, StampsOf(refs, clock));
    Reported(levels, refs, trips, before) && after == FixAll(before, trips, |refs|)
  }

  method AskLedger(local: Ledger, tiers: map<string, Tier>, live: seq<Charge>, refs: seq<Ref>, now: real)
    returns (levels: seq<Level>)
    modifies local
    ensures LedgerAnswered(tiers, live, refs, now, levels, old(local.m), local.m, local.max)
    ensures ForBuckets(levels, refs)
  {
    levels := local.Apply(tiers, live, refs, now);
    LocalForBuckets(levels, refs, VisitsOf(tiers, live, refs, now), old(local.m));
  }

  method AskRedis(client: Redis, tiers: map<string, Tier>, live: seq<Charge>, refs: seq<Ref>, now: real,
                  clock: Ref -> Stamps)
    returns (levels: seq<Level>)
    modifies client
    ensures RedisAnswered(tiers, live, refs, now, clock, levels, old(client.m), client.m)
    ensures ForBuckets(levels, refs)
  {
    levels := ApplyRedis(client, tiers, live, refs, now, StampsOf(refs, clock));
    RemoteForBuckets(levels, refs, TripsOf(tiers, live, refs, now, StampsOf(refs, clock)), old(client.m));
  }

  lemma LocalForBuckets(levels: seq<Level>, refs: seq<Ref>, visits: seq<Visit>, m: Slots)
    requires LocallyReported(levels, refs, visits, m, |refs|)
    ensures ForBuckets(levels, refs)
  {}

  lemma RemoteForBuckets(levels: seq<Level>, refs: seq<Ref>, trips: seq<Trip>, m: Keyspace)
    requires Reported(levels, refs, trips, m)
    ensures ForBuckets(levels, refs)
  {}

  function StampsOf(refs: seq<Ref>, clock: Ref -> Stamps): seq<Stamps> {
    seq(|refs|, i requires 0 <= i < |refs| => clock(refs[i]))
  }

  method Live(tiers: map<string, Tier>, charges: seq<Charge>) returns (live: seq<Charge>)
    ensures live == LiveOf(tiers, charges)
    ensures forall c :: c in live <==> c in charges && IsLive(tiers, c)
  {
    live := [];
    for i := 0 to |charges|
      invariant live == LiveOf(tiers, charges[..i])
    {
      assert charges[..i + 1][..i] == charges[..i];
      if IsLive(tiers, charges[i]) {
        live := live + [charges[i]];
      }
    }
    assert charges[..|charges|] == charges;
    forall c ensures c in live <==> c in charges && IsLive(tiers, c) {
      LiveMembers(tiers, charges, c);
    }
  }

  /** A call is determined by the multiset of its charges and the set of buckets it reads: whatever the
      order, the same buckets are visited in the same order with the same sums. */
  lemma OrderIsIrrelevant(tiers: map<string, Tier>, charges: seq<Charge>, charges': seq<Charge>,
                          queries: seq<Ref>, queries': seq<Ref>, refs: seq<Ref>, refs': seq<Ref>, now: real)
    requires multiset(charges) == multiset(charges')
    requires forall r :: r in queries <==> r in queries'
    requires IsUnion(refs, Wanted(tiers, LiveOf(tiers, charges), queries))
    requires IsUnion(refs', Wanted(tiers, LiveOf(tiers, charges'), queries'))
    ensures refs == refs'
    ensures VisitsOf(tiers, LiveOf(tiers, charges), refs, now) == VisitsOf(tiers, LiveOf(tiers, charges'), refs', now)
  {
    var live, live' := LiveOf(tiers, charges), LiveOf(tiers, charges');
    LivePermutation(tiers, charges, charges');
    assert forall c :: c in live <==> c in multiset(live);
    assert forall c :: c in live' <==> c in multiset(live');
    assert RefsIn(live) == RefsIn(live');
    assert Wanted(tiers, live, queries) == Wanted(tiers, live', queries');
    UnionIsUnique(refs, refs', Wanted(tiers, live, queries));
    forall ref ensures ChargeOn(live, ref) == ChargeOn(live', ref) {
      ChargeOnPermutation(live, live', ref);
    }
    SameVisits(tiers, live, live', refs, now);
  }

  lemma SameVisits(tiers: map<string, Tier>, live: seq<Charge>, live': seq<Charge>, refs: seq<Ref>, now: real)
    requires forall ref :: ChargeOn(live, ref) == ChargeOn(live', ref)
    ensures VisitsOf(tiers, live, refs, now) == VisitsOf(tiers, live', refs, now)
  {}
}
