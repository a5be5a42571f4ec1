/** The shared form of the buckets: one pipeline of SETNX / INCRBYFLOAT / PEXPIRE or GET per call, then
    corrective SETs. Redis is a map of keys with deadlines; every command carries the server time at
    which it ran. */
module RedisPath {
  import opened Wrappers
  import opened Tiers
  import opened Refs
  import opened Ledgers

  /** A key's value and, unless it never expires, the server time from which it is gone. */
  datatype Entry = Entry(value: real, until: Option<real>)

  type Keyspace = map<string, Entry>

  // ---------- the commands, on one key ----------

  predicate Alive(o: Option<Entry>, at: real) {
    o.Some? && (o.value.until.Some? ==> at < o.value.until.value)
  }

  function SetNX(o: Option<Entry>, value: real, ttl: real, at: real): Option<Entry> {
    if Alive(o, at) then o else Some(Entry(value, Some(at + ttl)))
  }

  function IncrBy(o: Option<Entry>, d: real, at: real): Entry {
    if Alive(o, at) then Entry(o.value.value + d, o.value.until) else Entry(d, None)
  }

  function PExpire(o: Option<Entry>, ttl: real, at: real): Option<Entry> {
    if Alive(o, at) then Some(Entry(o.value.value, Some(at + ttl))) else None
  }

  function Fetch(o: Option<Entry>, at: real): Option<real> {
    if Alive(o, at) then Some(o.value.value) else None
  }

  // ---------- one bucket, one call ----------

  /** When the server ran the commands of one call on one key: SETNX or GET, INCRBYFLOAT, PEXPIRE, SET. */
  datatype Stamps = Stamps(first: real, incr: real, expire: real, fix: real) {
    predicate Ordered() { first <= incr <= expire <= fix }
  }

  datatype Trip = Trip(visit: Visit, life: real, at: Stamps)

  function TripOf(tiers: map<string, Tier>, charges: seq<Charge>, ref: Ref, now: real, at: Stamps): Trip {
    Trip(VisitOf(tiers, charges, ref, now), TierOf(tiers, ref.kind).Lifetime(), at)
  }

  function TripsOf(tiers: map<string, Tier>, charges: seq<Charge>, refs: seq<Ref>, now: real, at: seq<Stamps>)
    : seq<Trip>
    requires |at| == |refs|
  {
    seq(|refs|, i requires 0 <= i < |refs| => TripOf(tiers, charges, refs[i], now, at[i]))
  }

  /** The increment of a charging call. */
  function Charged(o: Option<Entry>, t: Trip): Entry
    requires t.visit.charge.Some?
  {
    IncrBy(SetNX(o, t.visit.mark, t.life, t.at.first), t.visit.charge.value, t.at.incr)
  }

  /** What the pipeline answers. */
  function Raw(o: Option<Entry>, t: Trip): Option<real> {
    if t.visit.charge.Some? then Some(Charged(o, t).value) else Fetch(o, t.at.first)
  }

  /** What the pipeline leaves behind. */
  function Piped(o: Option<Entry>, t: Trip): Option<Entry> {
    if t.visit.charge.Some? then PExpire(Some(Charged(o, t)), t.life, t.at.expire) else o
  }

  /** The level the caller is told, and whether the stored number needs correcting. */
  datatype Verdict = Verdict(effective: real, fix: bool)

  function Assess(raw: real, v: Visit): Verdict {
    var effective := raw - v.mark;
    if v.charge.Some? && effective < v.charge.value then Verdict(Clamp(v.charge.value, 0.0, v.max), true)
    else if effective > v.max then Verdict(v.max, v.charge.Some?)
    else if effective < 0.0 then Verdict(0.0, false)
    else Verdict(effective, false)
  }

  function RedisFill(o: Option<Entry>, t: Trip): real {
    match Raw(o, t)
    case None => 0.0
    case Some(raw) => Assess(raw, t.visit).effective
  }

  function Corrected(t: Trip, effective: real): Entry {
    Entry(t.visit.mark + effective, Some(t.at.fix + t.life))
  }

  function RedisEntry(o: Option<Entry>, t: Trip): Option<Entry> {
    var raw := Raw(o, t);
    if raw.Some? && Assess(raw.value, t.visit).fix then Some(Corrected(t, Assess(raw.value, t.visit).effective))
    else Piped(o, t)
  }

  // ---------- one call over many keys ----------

  /** The keyspace after the pipeline ran for the given keys. */
  function PipeAll(m: Keyspace, trips: seq<Trip>): Keyspace {
    if trips == [] then m
    else
      var t := trips[|trips| - 1];
      var before := PipeAll(m, trips[..|trips| - 1]);
      Put(before, t.visit.key, Piped(Get(before, t.visit.key), t))
  }

  function RawAt(m: Keyspace, trips: seq<Trip>, i: nat): Option<real>
    requires i < |trips|
  {
    Raw(Get(PipeAll(m, trips[..i]), trips[i].visit.key), trips[i])
  }

  function FillAt(m: Keyspace, trips: seq<Trip>, i: nat): real
    requires i < |trips|
  {
    match RawAt(m, trips, i)
    case None => 0.0
    case Some(raw) => Assess(raw, trips[i].visit).effective
  }

  /** The keyspace after the corrections of the first `n` keys. */
  function FixAll(m: Keyspace, trips: seq<Trip>, n: nat): Keyspace
    requires n <= |trips|
  {
    if n == 0 then PipeAll(m, trips)
    else
      var before := FixAll(m, trips, n - 1);
      var t, raw := trips[n - 1], RawAt(m, trips, n - 1);
      if raw.Some? && Assess(raw.value, t.visit).fix
      then before[t.visit.key := Corrected(t, Assess(raw.value, t.visit).effective)]
      else before
  }

  class Redis {
    var m: Keyspace

    constructor ()
      ensures m == map[]
    {
      m := map[];
    }

    method DoSetNX(key: string, value: real, ttl: real, at: real)
      modifies this
      ensures m == Put(old(m), key, SetNX(old(Get(m, key)), value, ttl, at))
    {
      if !Alive(Get(m, key), at) {
        m := m[key := Entry(value, Some(at + ttl))];
      } else {
        assert m[key := m[key]] == m;
      }
    }

    method DoIncrBy(key: string, d: real, at: real) returns (raw: real)
      modifies this
      ensures m == old(m)[key := IncrBy(old(Get(m, key)), d, at)] && raw == m[key].value
    {
      m := m[key := IncrBy(Get(m, key), d, at)];
      raw := m[key].value;
    }

    method DoPExpire(key: string, ttl: real, at: real)
      modifies this
      ensures m == Put(old(m), key, PExpire(old(Get(m, key)), ttl, at))
    {
      m := Put(m, key, PExpire(Get(m, key), ttl, at));
    }

    method DoSet(key: string, e: Entry)
      modifies this
      ensures m == old(m)[key := e]
    {
      m := m[key := e];
    }
  }

  /** The pipelined commands on one key. */
  method RunCommands(client: Redis, t: Trip) returns (raw: Option<real>)
    modifies client
    ensures raw == Raw(old(Get(client.m, t.visit.key)), t)
    ensures client.m == Put(old(client.m), t.visit.key, Piped(old(Get(client.m, t.visit.key)), t))
  {
    if t.visit.charge.Some? {
      client.DoSetNX(t.visit.key, t.visit.mark, t.life, t.at.first);
      var n := client.DoIncrBy(t.visit.key, t.visit.charge.value, t.at.incr);
      client.DoPExpire(t.visit.key, t.life, t.at.expire);
      raw := Some(n);
    } else {
      raw := Fetch(Get(client.m, t.visit.key), t.at.first);
      assert client.m == Put(client.m, t.visit.key, Get(client.m, t.visit.key));
    }
  }

  /** The call against Redis when no command fails. */
  method ApplyRedis(client: Redis, tiers: map<string, Tier>, charges: seq<Charge>, refs: seq<Ref>, now: real,
                    at: seq<Stamps>)
    returns (levels: seq<Level>)
    requires |at| == |refs|
    modifies client
    ensures Reported(levels, refs, TripsOf(tiers, charges, refs, now, at), old(client.m))
    ensures client.m == FixAll(old(client.m), TripsOf(tiers, charges, refs, now, at), |refs|)
  {
    ghost var m0 := client.m;
    var sums := Sum(charges);
    var trips := LookupAll(tiers, charges, sums, refs, now, at);
    var stored := Pipeline(client, trips);
    var fills, fixes := AssessAll(m0, trips, stored);
    SendFixes(client, fixes);
    levels := Report(refs, trips, fills, m0);
  }

  /** The tier, the key, the mark and the charge of every bucket. */
  method LookupAll(tiers: map<string, Tier>, ghost charges: seq<Charge>, sums: map<Ref, real>, refs: seq<Ref>,
                   now: real, at: seq<Stamps>)
    returns (trips: seq<Trip>)
    requires |at| == |refs| && forall ref :: Get(sums, ref) == ChargeOn(charges, ref)
    ensures trips == TripsOf(tiers, charges, refs, now, at)
  {
    ghost var all := TripsOf(tiers, charges, refs, now, at);
    trips := [];
    for i := 0 to |refs|
      invariant trips == all[..i]
    {
      var v := Lookup(tiers, charges, sums, refs[i], now);
      trips := trips + [Trip(v, TierOf(tiers, refs[i].kind).Lifetime(), at[i])];
    }
  }

  /** The first pipeline. */
  method Pipeline(client: Redis, trips: seq<Trip>) returns (stored: seq<Option<real>>)
    modifies client
    ensures client.m == PipeAll(old(client.m), trips)
    ensures |stored| == |trips|
    ensures forall j :: 0 <= j < |trips| ==> stored[j] == RawAt(old(client.m), trips, j)
  {
    ghost var m0 := client.m;
    stored := [];
    for i := 0 to |trips|
      invariant |stored| == i
      invariant client.m == PipeAll(m0, trips[..i])
      invariant forall j :: 0 <= j < i ==> stored[j] == RawAt(m0, trips, j)
    {
      assert trips[..i + 1][..i] == trips[..i];
      var raw := RunCommands(client, trips[i]);
      assert raw == RawAt(m0, trips, i);
      stored := stored + [raw];
    }
    assert trips[..|trips|] == trips;
  }

  ghost predicate Reported(levels: seq<Level>, refs: seq<Ref>, trips: seq<Trip>, m: Keyspace) {
    && |levels| == |refs| == |trips|
    && forall i :: 0 <= i < |refs| ==> levels[i] == LevelOf(refs[i], trips[i].visit.max, FillAt(m, trips, i))
  }

  method Report(refs: seq<Ref>, trips: seq<Trip>, fills: seq<real>, ghost m: Keyspace) returns (levels: seq<Level>)
    requires |refs| == |trips| == |fills|
    requires forall i :: 0 <= i < |trips| ==> fills[i] == FillAt(m, trips, i)
    ensures Reported(levels, refs, trips, m)
  {
    levels := seq(|refs|, i requires 0 <= i < |refs| => LevelOf(refs[i], trips[i].visit.max, fills[i]));
  }

  /** The second loop: read the answers, compute the fills, collect the corrections. */
  method AssessAll(ghost m0: Keyspace, trips: seq<Trip>, stored: seq<Option<real>>)
    returns (fills: seq<real>, fixes: seq<(string, Entry)>)
    requires |stored| == |trips|
    requires forall j :: 0 <= j < |trips| ==> stored[j] == RawAt(m0, trips, j)
    ensures |fills| == |trips| && forall j :: 0 <= j < |trips| ==> fills[j] == FillAt(m0, trips, j)
    ensures Overwritten(PipeAll(m0, trips), fixes) == FixAll(m0, trips, |trips|)
  {
    fills, fixes := [], [];
    for i := 0 to |trips|
      invariant |fills| == i && forall j :: 0 <= j < i ==> fills[j] == FillAt(m0, trips, j)
      invariant Overwritten(PipeAll(m0, trips), fixes) == FixAll(m0, trips, i)
    {
      var t := trips[i];
      var effective := 0.0;
      if stored[i].Some? {
        var verdict := Assess(stored[i].value, t.visit);
        effective := verdict.effective;
        if verdict.fix {
          var longer := fixes + [(t.visit.key, Corrected(t, effective))];
          assert longer[..|fixes|] == fixes;
          fixes := longer;
        }
      }
      assert effective == FillAt(m0, trips, i);
      fills := fills + [effective];
    }
  }

  /** The second pipeline: the corrective SETs. */
  method SendFixes(client: Redis, fixes: seq<(string, Entry)>)
    modifies client
    ensures client.m == Overwritten(old(client.m), fixes)
  {
    for i := 0 to |fixes|
      invariant client.m == Overwritten(old(client.m), fixes[..i])
    {
      assert fixes[..i + 1][..i] == fixes[..i];
      client.DoSet(fixes[i].0, fixes[i].1);
    }
    assert fixes[..|fixes|] == fixes;
  }

  function Overwritten(m: Keyspace, fixes: seq<(string, Entry)>): Keyspace {
    if fixes == [] then m
    else
      var n := |fixes| - 1;
      Overwritten(m, fixes[..n])[fixes[n].0 := fixes[n].1]
  }

  // ---------- a call treats every key on its own ----------

  ghost predicate TripsApart(trips: seq<Trip>) {
    forall i, j :: 0 <= i < j < |trips| ==> trips[i].visit.key != trips[j].visit.key
  }

  lemma {:induction false} PipedElsewhere(m: Keyspace, trips: seq<Trip>, key: string)
    requires forall i :: 0 <= i < |trips| ==> trips[i].visit.key != key
    ensures Get(PipeAll(m, trips), key) == Get(m, key)
  {
    if trips != [] {
      PipedElsewhere(m, trips[..|trips| - 1], key);
    }
  }

  lemma {:induction false} PipedAt(m: Keyspace, trips: seq<Trip>, i: nat)
    requires TripsApart(trips) && i < |trips|
    ensures Get(PipeAll(m, trips), trips[i].visit.key) == Piped(Get(m, trips[i].visit.key), trips[i])
    ensures RawAt(m, trips, i) == Raw(Get(m, trips[i].visit.key), trips[i])
  {
    var n := |trips| - 1;
    PipedElsewhere(m, trips[..i], trips[i].visit.key);
    if i < n {
      PipedAt(m, trips[..n], i);
      assert trips[..n][..i] == trips[..i];
    }
  }

  lemma {:induction false} FixedElsewhere(m: Keyspace, trips: seq<Trip>, n: nat, key: string)
    requires n <= |trips|
    requires forall i :: 0 <= i < n ==> trips[i].visit.key != key
    ensures Get(FixAll(m, trips, n), key) == Get(PipeAll(m, trips), key)
  {
    if n > 0 {
      FixedElsewhere(m, trips, n - 1, key);
    }
  }

  /** With keys apart, each bucket's level and next entry depend on that bucket alone. */
  lemma {:induction false} RedisAt(m: Keyspace, trips: seq<Trip>, n: nat, i: nat)
    requires TripsApart(trips) && i < n <= |trips|
    ensures Get(FixAll(m, trips, n), trips[i].visit.key) == RedisEntry(Get(m, trips[i].visit.key), trips[i])
    ensures FillAt(m, trips, i) == RedisFill(Get(m, trips[i].visit.key), trips[i])
  {
    PipedAt(m, trips, i);
    if i < n - 1 {
      RedisAt(m, trips, n - 1, i);
    } else {
      FixedElsewhere(m, trips, i, trips[i].visit.key);
    }
  }

  lemma RedisElsewhere(m: Keyspace, trips: seq<Trip>, key: string)
    requires forall i :: 0 <= i < |trips| ==> trips[i].visit.key != key
    ensures Get(FixAll(m, trips, |trips|), key) == Get(m, key)
  {
    FixedElsewhere(m, trips, |trips|, key);
    PipedElsewhere(m, trips, key);
  }

  /** Whatever Redis held, and whenever the key vanishes, the caller is told at least its own charge, up to the cap. */
  lemma OwnChargeIsTold(o: Option<Entry>, t: Trip)
    requires t.visit.max > 0.0 && t.visit.charge.Some? && t.visit.charge.value >= 0.0
    ensures Clamp(t.visit.charge.value, 0.0, t.visit.max) <= RedisFill(o, t) <= t.visit.max
  {}
}
