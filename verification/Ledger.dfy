/** The in-memory form of the buckets: a map from key to stored number that forgets drained entries
    and, when it overflows, arbitrary ones. */
module Ledgers {
  import opened Wrappers
  import opened Tiers
  import opened Refs

  type Slots = map<string, real>

  const DEFAULT_MAX := 100000

  /** What a call looks up before it turns to a bucket: the key, the capacity, the mark of the clock,
      and the summed charge, if any. */
  datatype Visit = Visit(key: string, max: real, mark: real, charge: Option<real>)

  function VisitOf(tiers: map<string, Tier>, charges: seq<Charge>, ref: Ref, now: real): Visit {
    var tier := TierOf(tiers, ref.kind);
    Visit(BucketKey(ref), tier.max, tier.Mark(now), ChargeOn(charges, ref))
  }

  function VisitsOf(tiers: map<string, Tier>, charges: seq<Charge>, refs: seq<Ref>, now: real): seq<Visit> {
    seq(|refs|, i requires 0 <= i < |refs| => VisitOf(tiers, charges, refs[i], now))
  }

  /** The fill one call reports for one bucket. */
  function LocalFill(slot: Option<real>, v: Visit): real {
    Filled(Held(slot, v.max, v.mark), v.max, v.charge)
  }

  /** What the ledger holds for that bucket afterwards. */
  function LocalSlot(slot: Option<real>, v: Visit): Option<real> {
    var effective := LocalFill(slot, v);
    if v.charge.Some? then Some(effective + v.mark)
    else if slot.Some? && effective <= 0.0 then None
    else slot
  }

  function Put<K, V>(m: map<K, V>, k: K, slot: Option<V>): map<K, V> {
    match slot
    case Some(v) => m[k := v]
    case None => m - {k}
  }

  function VisitOne(m: Slots, v: Visit): Slots {
    Put(m, v.key, LocalSlot(Get(m, v.key), v))
  }

  /** The map after the buckets were visited in order. */
  function Visited(m: Slots, visits: seq<Visit>): Slots {
    if visits == [] then m
    else
      VisitOne(Visited(m, visits[..|visits| - 1]), visits[|visits| - 1])
  }

  /** The fill reported at visit `i`. */
  function VisitFill(m: Slots, visits: seq<Visit>, i: nat): real
    requires i < |visits|
  {
    LocalFill(Get(Visited(m, visits[..i]), visits[i].key), visits[i])
  }

  lemma VisitedStep(m: Slots, visits: seq<Visit>, i: nat)
    requires i < |visits|
    ensures Visited(m, visits[..i + 1]) == VisitOne(Visited(m, visits[..i]), visits[i])
  {
    assert visits[..i + 1][..i] == visits[..i];
  }

  /** The levels of the first `n` buckets. */
  ghost predicate LocallyReported(levels: seq<Level>, refs: seq<Ref>, visits: seq<Visit>, m: Slots, n: nat) {
    && |levels| == n <= |refs| == |visits|
    && forall i :: 0 <= i < n ==> levels[i] == LevelOf(refs[i], visits[i].max, VisitFill(m, visits, i))
  }

  lemma ReportedMore(levels: seq<Level>, refs: seq<Ref>, visits: seq<Visit>, m: Slots, n: nat, effective: real)
    requires LocallyReported(levels, refs, visits, m, n) && n < |refs| && effective == VisitFill(m, visits, n)
    ensures LocallyReported(levels + [LevelOf(refs[n], visits[n].max, effective)], refs, visits, m, n + 1)
  {}

  method Lookup(tiers: map<string, Tier>, ghost charges: seq<Charge>, sums: map<Ref, real>, ref: Ref, now: real)
    returns (v: Visit)
    requires Get(sums, ref) == ChargeOn(charges, ref)
    ensures v == VisitOf(tiers, charges, ref, now)
  {
    var tier := TierOf(tiers, ref.kind);
    v := Visit(BucketKey(ref), tier.max, tier.Mark(now), Get(sums, ref));
  }

  ghost predicate Submap(small: Slots, large: Slots) {
    forall k :: k in small ==> k in large && small[k] == large[k]
  }

  /** The sweep at the end of a call: nothing while the map fits, else half of the limit stays. */
  ghost predicate Swept(full: Slots, left: Slots, max: nat) {
    if |full| <= max then left == full
    else Submap(left, full) && |left| == max / 2
  }

  class Ledger {
    const max: nat
    var m: Slots

    constructor (max: nat)
      ensures this.max == max && m == map[]
    {
      this.max := max;
      m := map[];
    }

    method Apply(tiers: map<string, Tier>, charges: seq<Charge>, refs: seq<Ref>, now: real)
      returns (levels: seq<Level>)
      modifies this
      ensures var visits := VisitsOf(tiers, charges, refs, now);
        && LocallyReported(levels, refs, visits, old(m), |refs|)
        && Swept(old(Visited(m, visits)), m, max)
      ensures |m| <= max
    {
      var sums := Sum(charges);
      ghost var visits := VisitsOf(tiers, charges, refs, now);
      ghost var m0 := m;
      levels := [];
      for i := 0 to |refs|
        invariant m == Visited(m0, visits[..i])
        invariant LocallyReported(levels, refs, visits, m0, i)
      {
        var v := Lookup(tiers, charges, sums, refs[i], now);
        assert v == visits[i];
        VisitedStep(m0, visits, i);
        var effective := Touch(v);
        ReportedMore(levels, refs, visits, m0, i, effective);
        levels := levels + [LevelOf(refs[i], v.max, effective)];
      }
      assert visits[..|refs|] == visits;
      if |m| > max {
        Evict();
      }
    }

    /** The body of the loop over the buckets. */
    method Touch(v: Visit) returns (effective: real)
      modifies this`m
      ensures effective == LocalFill(old(Get(m, v.key)), v)
      ensures m == VisitOne(old(m), v)
    {
      var stored := Get(m, v.key);
      effective := 0.0;
      if stored.Some? {
        effective := Clamp(stored.value - v.mark, 0.0, v.max);
      }
      if v.charge.Some? {
        effective := Clamp(effective + v.charge.value, 0.0, v.max);
        m := m[v.key := effective + v.mark];
      } else if stored.Some? && effective <= 0.0 {
        m := m - {v.key};
      } else {
        assert m == Put(m, v.key, stored);
      }
    }

    /** Deletes entries in no particular order until half the limit is left. */
    method Evict()
      requires |m| > max
      modifies this`m
      ensures Submap(m, old(m)) && |m| == max / 2
    {
      var enough := false;
      while !enough
        invariant Submap(m, old(m))
        invariant if enough then |m| == max / 2 else |m| > max / 2
        decreases !enough, |m|
      {
        var key :| key in m;
        m := m - {key};
        enough := |m| <= max / 2;
      }
    }
  }

  // ---------- a call treats every bucket on its own ----------

  ghost predicate KeysApart(visits: seq<Visit>) {
    forall i, j :: 0 <= i < j < |visits| ==> visits[i].key != visits[j].key
  }

  lemma {:induction false} VisitedElsewhere(m: Slots, visits: seq<Visit>, key: string)
    requires forall i :: 0 <= i < |visits| ==> visits[i].key != key
    ensures Get(Visited(m, visits), key) == Get(m, key)
  {
    if visits != [] {
      VisitedElsewhere(m, visits[..|visits| - 1], key);
    }
  }

  /** One visit in numbers: what is left of the stored number above the mark, kept between empty and full, is what the
      bucket holds; a charge is added and the result kept between empty and full again. */
  lemma VisitInNumbers(slot: Option<real>, v: Visit, held: real, fill: real)
    requires v.max > 0.0
    requires slot.None? ==> held == 0.0
    requires slot.Some? ==>
      var left := slot.value - v.mark; held == if left < 0.0 then 0.0 else if left > v.max then v.max else left
    requires v.charge.None? ==> fill == held
    requires v.charge.Some? ==>
      var sum := held + v.charge.value; fill == if sum < 0.0 then 0.0 else if sum > v.max then v.max else sum
    ensures LocalFill(slot, v) == fill
    ensures LocalSlot(slot, v) == if v.charge.Some? then Some(fill + v.mark) else if fill <= 0.0 then None else slot
  {}

  /** A call adds at most one entry for each bucket it visits. */
  lemma {:induction false} VisitedGrows(m: Slots, visits: seq<Visit>)
    ensures |Visited(m, visits)| <= |m| + |visits|
  {
    if visits != [] {
      var n := |visits| - 1;
      VisitedGrows(m, visits[..n]);
      PutGrows(Visited(m, visits[..n]), visits[n].key, LocalSlot(Get(Visited(m, visits[..n]), visits[n].key), visits[n]));
    }
  }

  lemma PutGrows(m: Slots, key: string, slot: Option<real>)
    ensures |Put(m, key, slot)| <= |m| + 1
  {
    if slot.Some? {
      assert Put(m, key, slot).Keys == m.Keys + {key};
    } else {
      assert Put(m, key, slot).Keys == m.Keys - {key};
    }
  }

  /** With keys apart, each bucket's level and next slot depend on that bucket alone. */
  lemma {:induction false} VisitedAt(m: Slots, visits: seq<Visit>, i: nat)
    requires KeysApart(visits) && i < |visits|
    ensures Get(Visited(m, visits), visits[i].key) == LocalSlot(Get(m, visits[i].key), visits[i])
    ensures VisitFill(m, visits, i) == LocalFill(Get(m, visits[i].key), visits[i])
  {
    var n := |visits| - 1;
    VisitedElsewhere(m, visits[..i], visits[i].key);
    if i < n {
      VisitedAt(m, visits[..n], i);
      assert visits[..n][..i] == visits[..i];
    }
  }
}
