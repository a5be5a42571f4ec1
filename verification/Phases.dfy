/** One phase of a request: what it charges and reads, the levels it judges by, and what the whole chain from
    charges to verdict guarantees. */
module Phases {
  import opened Wrappers
  import opened Tiers
  import opened Refs
  import opened Ledgers
  import opened RedisPath
  import opened Agreement
  import opened BucketStore
  import opened Counters
  import opened Subjects
  import opened Prior
  import opened Judge

  /** A rule that measures the traffic: what it found, times its weight, goes to the axes named, or to all. */
  datatype Measure = Measure(counter: string, axes: seq<string>, weight: real)

  datatype Value = Value(counter: string, axes: seq<string>, add: real)

  /** The part of a profile one phase works with. `probes` are the outcomes that watch a level. */
  datatype Profile = Profile(measures: seq<Measure>, rules: seq<Rule>, probes: seq<SubjectRef>, prior: seq<PriorRule>,
                             denyResponse: string, observe: bool)

  /** What validation against the counters demands of a profile that is not off. */
  predicate ValidAgainst(p: Profile, c: Config) {
    && (forall r :: r in p.rules ==> c.HasAxis(r.counter, r.axis))
    && (forall o :: o in p.probes ==> c.HasAxis(o.counter, o.axis))
    && (forall m :: m in p.measures ==>
          m.counter in c.counters && c.Fill(m.counter) == FILL_MEASURE
          && forall axis :: axis in m.axes ==> c.HasAxis(m.counter, axis))
    && (forall r :: r in p.prior && NOTE in r.accept ==> r.counter in c.counters && c.Fill(r.counter) == FILL_NOTE)
  }

  function RefOf(counter: string, axis: string, key: string): Ref {
    Ref(Kind(counter, axis), key)
  }

  // ---------- measuring ----------

  function ValueOf(m: Measure, c: Config, amount: real): Value {
    Value(m.counter, if m.axes == [] then Present(c, m.counter, KNOWN_AXES) else m.axes, amount * m.weight)
  }

  /** `amounts` holds what each rule extracted, zero where its selectors do not match. */
  function ValuesOf(measures: seq<Measure>, c: Config, amounts: seq<real>): seq<Value>
    requires |amounts| == |measures|
  {
    if measures == [] then []
    else
      var n := |measures| - 1;
      ValuesOf(measures[..n], c, amounts[..n])
      + if amounts[n] == 0.0 then [] else [ValueOf(measures[n], c, amounts[n])]
  }

  method Run(measures: seq<Measure>, c: Config, amounts: seq<real>) returns (values: seq<Value>)
    requires |amounts| == |measures|
    ensures values == ValuesOf(measures, c, amounts)
  {
    values := [];
    for i := 0 to |measures|
      invariant values == ValuesOf(measures[..i], c, amounts[..i])
    {
      assert measures[..i + 1][..i] == measures[..i] && amounts[..i + 1][..i] == amounts[..i];
      assert values + [] == values;
      if amounts[i] == 0.0 {
        continue;
      }
      var axes := measures[i].axes;
      if |axes| == 0 {
        axes := AxesOf(c, measures[i].counter);
      }
      var v := Value(measures[i].counter, axes, amounts[i] * measures[i].weight);
      assert v == ValueOf(measures[i], c, amounts[i]);
      values := values + [v];
    }
    assert measures[..|measures|] == measures && amounts[..|measures|] == amounts;
  }

  /** Measured values go to counters that measuring fills. */
  ghost predicate Measured(values: seq<Value>, c: Config) {
    forall v :: v in values ==> c.Fill(v.counter) == FILL_MEASURE && v.counter in c.counters
  }

  /** In a profile validated against the counters, measured values go to counters that measuring fills, and
      only to axes they have. */
  lemma {:induction false} ValuesAreMeasured(p: Profile, c: Config, measures: seq<Measure>, amounts: seq<real>)
    requires ValidAgainst(p, c) && |amounts| == |measures| && forall m :: m in measures ==> m in p.measures
    ensures Measured(ValuesOf(measures, c, amounts), c)
    ensures forall v :: v in ValuesOf(measures, c, amounts) ==>
              v.counter in c.counters && c.counters[v.counter].fill != "note"
    ensures forall v, axis :: v in ValuesOf(measures, c, amounts) && axis in v.axes ==> c.HasAxis(v.counter, axis)
  {
    if measures != [] {
      var n := |measures| - 1;
      ValuesAreMeasured(p, c, measures[..n], amounts[..n]);
      var m := measures[n];
      assert m in p.measures;
      forall axis | axis in Present(c, m.counter, KNOWN_AXES) ensures c.HasAxis(m.counter, axis) {
        PresentMembers(c, m.counter, KNOWN_AXES, axis);
      }
    }
  }

  // ---------- charges and reads ----------

  function ValueCharges(v: Value, axes: seq<string>, c: Config, keys: Keys): seq<Charge> {
    if axes == [] then []
    else
      var n := |axes| - 1;
      match KeyOf(c, keys, v.counter, axes[n])
      case None => ValueCharges(v, axes[..n], c, keys)
      case Some(key) => ValueCharges(v, axes[..n], c, keys) + [Charge(RefOf(v.counter, axes[n], key), v.add)]
  }

  function MeasureCharges(values: seq<Value>, c: Config, keys: Keys): seq<Charge> {
    if values == [] then []
    else
      var n := |values| - 1; MeasureCharges(values[..n], c, keys) + ValueCharges(values[n], values[n].axes, c, keys)
  }

  /** A note charges its percentage of the bucket's capacity. */
  function NoteAdd(tiers: map<string, Tier>, n: NoteCharge): real {
    n.percent as real / 100.0 * TierOf(tiers, Kind(n.counter, n.axis)).max
  }

  function NoteCharges(notes: seq<NoteCharge>, c: Config, keys: Keys, tiers: map<string, Tier>): seq<Charge> {
    if notes == [] then []
    else
      var n := |notes| - 1;
      match KeyOf(c, keys, notes[n].counter, notes[n].axis)
      case None => NoteCharges(notes[..n], c, keys, tiers)
      case Some(key) => NoteCharges(notes[..n], c, keys, tiers)
                        + [Charge(RefOf(notes[n].counter, notes[n].axis, key), NoteAdd(tiers, notes[n]))]
  }

  function ReadsFor(refs: seq<SubjectRef>, c: Config, keys: Keys): seq<Ref> {
    if refs == [] then []
    else
      var n := |refs| - 1;
      match KeyOf(c, keys, refs[n].counter, refs[n].axis)
      case None => ReadsFor(refs[..n], c, keys)
      case Some(key) => ReadsFor(refs[..n], c, keys) + [RefOf(refs[n].counter, refs[n].axis, key)]
  }

  method BuildMeasureCharges(values: seq<Value>, c: Config, keys: Keys) returns (charges: seq<Charge>)
    ensures charges == MeasureCharges(values, c, keys)
  {
    charges := [];
    for i := 0 to |values|
      invariant charges == MeasureCharges(values[..i], c, keys)
    {
      ghost var before := charges;
      var v := values[i];
      assert values[..i + 1][..i] == values[..i];
      assert before + [] == before;
      for k := 0 to |v.axes|
        invariant charges == before + ValueCharges(v, v.axes[..k], c, keys)
      {
        assert v.axes[..k + 1][..k] == v.axes[..k];
        var key := KeyOf(c, keys, v.counter, v.axes[k]);
        if key.None? {
          continue;
        }
        charges := charges + [Charge(RefOf(v.counter, v.axes[k], key.value), v.add)];
      }
      assert v.axes[..|v.axes|] == v.axes;
    }
    assert values[..|values|] == values;
  }

  method BuildNoteCharges(notes: seq<NoteCharge>, c: Config, keys: Keys, tiers: map<string, Tier>)
    returns (charges: seq<Charge>)
    ensures charges == NoteCharges(notes, c, keys, tiers)
  {
    charges := [];
    for i := 0 to |notes|
      invariant charges == NoteCharges(notes[..i], c, keys, tiers)
    {
      assert notes[..i + 1][..i] == notes[..i];
      var n := notes[i];
      var key := KeyOf(c, keys, n.counter, n.axis);
      if key.None? {
        continue;
      }
      charges := charges + [Charge(RefOf(n.counter, n.axis, key.value), NoteAdd(tiers, n))];
    }
    assert notes[..|notes|] == notes;
  }

  method BuildReads(refs: seq<SubjectRef>, c: Config, keys: Keys) returns (queries: seq<Ref>)
    ensures queries == ReadsFor(refs, c, keys)
  {
    queries := [];
    for i := 0 to |refs|
      invariant queries == ReadsFor(refs[..i], c, keys)
    {
      assert refs[..i + 1][..i] == refs[..i];
      var key := KeyOf(c, keys, refs[i].counter, refs[i].axis);
      if key.Some? {
        queries := queries + [RefOf(refs[i].counter, refs[i].axis, key.value)];
      }
    }
    assert refs[..|refs|] == refs;
  }

  // ---------- asking the buckets ----------

  /** What the phase compares with a level: its rules, then its probes. */
  function Watched(p: Profile): seq<SubjectRef> {
    seq(|p.rules|, i requires 0 <= i < |p.rules| => SubjectRef(p.rules[i].counter, p.rules[i].axis)) + p.probes
  }

  lemma {:induction false} ReadsMembers(refs: seq<SubjectRef>, c: Config, keys: Keys, r: SubjectRef)
    requires r in refs && KeyOf(c, keys, r.counter, r.axis).Some?
    ensures RefOf(r.counter, r.axis, KeyOf(c, keys, r.counter, r.axis).value) in ReadsFor(refs, c, keys)
  {
    var n := |refs| - 1;
    if refs[n] != r {
      assert refs == refs[..n] + [refs[n]];
      ReadsMembers(refs[..n], c, keys, r);
    }
  }

  /** The levels by bucket, as percentages. */
  method Percents(applied: seq<Level>, ghost refs: seq<Ref>) returns (levels: map<Ref, real>)
    requires ForBuckets(applied, refs) && Distinct(refs)
    ensures forall i :: 0 <= i < |refs| ==> refs[i] in levels && levels[refs[i]] == applied[i].percent
    ensures forall r :: r in levels ==> r in refs
  {
    levels := map[];
    for i := 0 to |applied|
      invariant forall k :: 0 <= k < i ==> refs[k] in levels && levels[refs[k]] == applied[k].percent
      invariant forall r :: r in levels ==> r in refs
    {
      levels := levels[applied[i].ref := applied[i].percent];
    }
  }

  function VisitPercent(m: Slots, v: Visit, ref: Ref): real {
    LevelOf(ref, v.max, LocalFill(Get(m, v.key), v)).percent
  }

  /** The percent an in-memory bucket shows once the call's live charges are in. */
  function PercentNow(m: Slots, tiers: map<string, Tier>, charges: seq<Charge>, ref: Ref, now: real): real {
    VisitPercent(m, VisitOf(tiers, LiveOf(tiers, charges), ref, now), ref)
  }

  /** In numbers: what the bucket still holds at the phase's mark, plus the sum of what the phase charges it, kept between
      empty and full, as a share of the capacity. */
  lemma PercentInNumbers(m: Slots, tiers: map<string, Tier>, charges: seq<Charge>, ref: Ref, now: real, tier: Tier,
                         key: string, mark: real, held: real, fill: real)
    requires ref.kind in tiers && tier == tiers[ref.kind] && tier.max > 0.0 && tier.loss > 0.0
    requires key == "cnt:bkt:" + ref.kind + ":" + ref.key && mark == tier.loss / 100.0 * tier.max * now
    requires key !in m ==> held == 0.0
    requires key in m ==>
      var left := m[key] - mark; held == if left < 0.0 then 0.0 else if left > tier.max then tier.max else left
    requires var sum := held + SumOf(charges, ref);
      fill == if sum < 0.0 then 0.0 else if sum > tier.max then tier.max else sum
    ensures PercentNow(m, tiers, charges, ref, now) == fill / tier.max * 100.0
  {
    var v := VisitOf(tiers, LiveOf(tiers, charges), ref, now);
    VisitKnown(tiers, charges, ref, now, tier, key, mark, v, exists c :: c in charges && c.ref == ref && c.add != 0.0);
    ChargedExactly(tiers, charges, ref);
    FillInNumbers(tiers, charges, ref, Get(m, key), v, held, fill);
  }

  lemma FillInNumbers(tiers: map<string, Tier>, charges: seq<Charge>, ref: Ref, slot: Option<real>, v: Visit, held: real,
                      fill: real)
    requires TierOf(tiers, ref.kind).Enabled() && v.max == TierOf(tiers, ref.kind).max
    requires v.charge == ChargeOn(LiveOf(tiers, charges), ref)
    requires held == if slot.None? then 0.0 else Clamp(slot.value - v.mark, 0.0, v.max)
    requires fill == Clamp(held + SumOf(charges, ref), 0.0, v.max)
    ensures LocalFill(slot, v) == fill
  {
    LiveKeepsSums(tiers, charges, ref);
    if ref !in RefsIn(LiveOf(tiers, charges)) {
      SumOfOthers(LiveOf(tiers, charges), ref);
    }
  }

  /** The same for a bucket in Redis, with the server times of this call's commands on it. */
  function RemotePercentNow(m: Keyspace, tiers: map<string, Tier>, charges: seq<Charge>, ref: Ref, now: real, at: Stamps)
    : real
  {
    var t := TripOf(tiers, LiveOf(tiers, charges), ref, now, at);
    LevelOf(ref, t.visit.max, RedisFill(Get(m, t.visit.key), t)).percent
  }

  /** Every watched subject that has a key is judged by a level the buckets returned. */
  ghost predicate AllFound(p: Profile, c: Config, keys: Keys, levels: map<Ref, real>) {
    forall r :: r in Watched(p) && KeyOf(c, keys, r.counter, r.axis).Some? ==>
      RefOf(r.counter, r.axis, KeyOf(c, keys, r.counter, r.axis).value) in levels
  }

  /** Charges and reads in one call, so that a level already includes what the same phase charges. */
  method Ask(store: Store, p: Profile, c: Config, tiers: map<string, Tier>, keys: Keys, values: seq<Value>,
             notes: seq<NoteCharge>, now: real, clock: Ref -> Stamps)
    returns (levels: map<Ref, real>, ghost charges: seq<Charge>)
    requires Valid(c) && IsTiers(c, tiers) && ValidAgainst(p, c) && NoEmptyKeys(c, keys)
    modifies if store.client == null then {store.local as object} else {store.client as object}
    ensures charges == MeasureCharges(values, c, keys) + NoteCharges(notes, c, keys, tiers)
    ensures AllFound(p, c, keys, levels)
    ensures forall r :: r in levels <==> r in Wanted(tiers, LiveOf(tiers, charges), ReadsFor(Watched(p), c, keys))
    ensures store.client == null ==>
      forall r :: r in levels ==> levels[r] == PercentNow(old(store.local.m), tiers, charges, r, now)
    ensures store.client != null ==>
      forall r :: r in levels ==> levels[r] == RemotePercentNow(old(store.client.m), tiers, charges, r, now, clock(r))
  {
    var measured := BuildMeasureCharges(values, c, keys);
    var noted := BuildNoteCharges(notes, c, keys, tiers);
    var all := measured + noted;
    charges := all;
    var watched := Watched(p);
    var queries := BuildReads(watched, c, keys);
    ghost var before, remote := store.local.m, if store.client == null then map[] else store.client.m;
    var applied, refs := store.Apply(tiers, all, queries, now, clock);
    AscendingIsDistinct(refs);
    levels := Percents(applied, refs);
    WatchedFound(p, c, tiers, keys, charges, refs, levels);
    if refs != [] {
      if store.client == null {
        ReportedIsPercentNow(c, tiers, charges, queries, refs, now, applied, before, store.local.m, store.local.max);
      } else {
        ReportedIsRemotePercent(c, tiers, charges, queries, refs, now, clock, applied, remote, store.client.m);
      }
    }
  }

  lemma WatchedFound(p: Profile, c: Config, tiers: map<string, Tier>, keys: Keys, charges: seq<Charge>, refs: seq<Ref>,
                     levels: map<Ref, real>)
    requires Valid(c) && IsTiers(c, tiers) && ValidAgainst(p, c) && NoEmptyKeys(c, keys)
    requires IsUnion(refs, Wanted(tiers, LiveOf(tiers, charges), ReadsFor(Watched(p), c, keys)))
    requires forall i :: 0 <= i < |refs| ==> refs[i] in levels
    ensures AllFound(p, c, keys, levels)
  {
    forall r | r in Watched(p) && KeyOf(c, keys, r.counter, r.axis).Some?
      ensures RefOf(r.counter, r.axis, KeyOf(c, keys, r.counter, r.axis).value) in levels
    {
      WatchedHasAxis(p, c, r);
      DeclaredIsEnabled(c, tiers, r.counter, r.axis);
      ReadsMembers(Watched(p), c, keys, r);
      var ref := RefOf(r.counter, r.axis, KeyOf(c, keys, r.counter, r.axis).value);
      assert Usable(tiers, ref);
      assert ref in refs;
    }
  }

  lemma WatchedHasAxis(p: Profile, c: Config, r: SubjectRef)
    requires ValidAgainst(p, c) && r in Watched(p)
    ensures c.HasAxis(r.counter, r.axis)
  {
    var i :| 0 <= i < |Watched(p)| && Watched(p)[i] == r;
    if i < |p.rules| {
      assert p.rules[i] in p.rules;
    } else {
      assert p.probes[i - |p.rules|] in p.probes;
    }
  }

  lemma ReportedIsPercentNow(c: Config, tiers: map<string, Tier>, charges: seq<Charge>, queries: seq<Ref>, refs: seq<Ref>,
                             now: real, applied: seq<Level>, before: Slots, after: Slots, max: nat)
    requires Valid(c) && IsTiers(c, tiers)
    requires IsUnion(refs, Wanted(tiers, LiveOf(tiers, charges), queries))
    requires LedgerAnswered(tiers, LiveOf(tiers, charges), refs, now, applied, before, after, max)
    ensures forall i :: 0 <= i < |refs| ==> applied[i].percent == PercentNow(before, tiers, charges, refs[i], now)
  {
    var visits := VisitsOf(tiers, LiveOf(tiers, charges), refs, now);
    VisitsApart(c, tiers, LiveOf(tiers, charges), refs, now);
    forall i | 0 <= i < |refs| ensures applied[i].percent == PercentNow(before, tiers, charges, refs[i], now) {
      OneReported(applied, refs, visits, before, i);
    }
  }

  lemma VisitsApart(c: Config, tiers: map<string, Tier>, live: seq<Charge>, refs: seq<Ref>, now: real)
    requires Valid(c) && IsTiers(c, tiers) && Ascending(refs) && forall r :: r in refs ==> Usable(tiers, r)
    ensures KeysApart(VisitsOf(tiers, live, refs, now))
  {
    AscendingIsDistinct(refs);
    ValidKeysInjective(c, tiers);
    Apart(tiers, refs);
  }

  lemma OneReported(applied: seq<Level>, refs: seq<Ref>, visits: seq<Visit>, m: Slots, i: nat)
    requires LocallyReported(applied, refs, visits, m, |refs|) && KeysApart(visits) && i < |refs|
    ensures applied[i] == LevelOf(refs[i], visits[i].max, LocalFill(Get(m, visits[i].key), visits[i]))
  {
    VisitedAt(m, visits, i);
  }

  lemma ReportedIsRemotePercent(c: Config, tiers: map<string, Tier>, charges: seq<Charge>, queries: seq<Ref>,
                                refs: seq<Ref>, now: real, clock: Ref -> Stamps, applied: seq<Level>, before: Keyspace,
                                after: Keyspace)
    requires Valid(c) && IsTiers(c, tiers)
    requires IsUnion(refs, Wanted(tiers, LiveOf(tiers, charges), queries))
    requires RedisAnswered(tiers, LiveOf(tiers, charges), refs, now, clock, applied, before, after)
    ensures forall i :: 0 <= i < |refs| ==>
      applied[i].percent == RemotePercentNow(before, tiers, charges, refs[i], now, clock(refs[i]))
  {
    var trips := TripsOf(tiers, LiveOf(tiers, charges), refs, now, StampsOf(refs, clock));
    TripsAreApart(c, tiers, LiveOf(tiers, charges), refs, now, StampsOf(refs, clock));
    forall i | 0 <= i < |refs|
      ensures applied[i].percent == RemotePercentNow(before, tiers, charges, refs[i], now, clock(refs[i]))
    {
      OneReportedRemotely(applied, refs, trips, before, i);
    }
  }

  lemma TripsAreApart(c: Config, tiers: map<string, Tier>, live: seq<Charge>, refs: seq<Ref>, now: real, at: seq<Stamps>)
    requires Valid(c) && IsTiers(c, tiers) && Ascending(refs) && forall r :: r in refs ==> Usable(tiers, r)
    requires |at| == |refs|
    ensures TripsApart(TripsOf(tiers, live, refs, now, at))
  {
    AscendingIsDistinct(refs);
    ValidKeysInjective(c, tiers);
    Apart(tiers, refs);
  }

  lemma OneReportedRemotely(applied: seq<Level>, refs: seq<Ref>, trips: seq<Trip>, m: Keyspace, i: nat)
    requires Reported(applied, refs, trips, m) && TripsApart(trips) && i < |refs|
    ensures applied[i] == LevelOf(refs[i], trips[i].visit.max, RedisFill(Get(m, trips[i].visit.key), trips[i]))
  {
    RedisAt(m, trips, |trips|, i);
  }
}
