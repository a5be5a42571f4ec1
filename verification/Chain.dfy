/** What the whole chain guarantees, from notes and charges through levels and rules to the reply. */
module Chain {
  import opened Wrappers
  import opened Tiers
  import opened Refs
  import opened Ledgers
  import RedisPath
  import opened Agreement
  import opened BucketStore
  import Runs
  import opened Counters
  import opened Subjects
  import Prior
  import opened Judge
  import opened Phases

  // ---------- notes move percentages by their values ----------

  /** Charges on one bucket, all live ones counted, leave the fill at the clamped sum. */
  lemma LiveChargesFill(tiers: map<string, Tier>, charges: seq<Charge>, ref: Ref, held: real)
    requires TierOf(tiers, ref.kind).Enabled() && 0.0 <= held <= TierOf(tiers, ref.kind).max
    ensures Filled(held, TierOf(tiers, ref.kind).max, ChargeOn(LiveOf(tiers, charges), ref))
         == Clamp(held + SumOf(charges, ref), 0.0, TierOf(tiers, ref.kind).max)
  {
    LiveKeepsSums(tiers, charges, ref);
    if ref !in RefsIn(LiveOf(tiers, charges)) {
      SumOfOthers(LiveOf(tiers, charges), ref);
    }
  }

  /** No counter's name contains the character that joins it to an axis. */
  ghost predicate PlainNames(c: Config) {
    forall counter :: counter in c.counters ==> ':' !in counter
  }

  lemma ValidIsPlain(c: Config)
    requires Valid(c)
    ensures PlainNames(c)
  {
    forall counter | counter in c.counters ensures ':' !in counter {
      assert GoodCounter(c, counter);
      GoodNameHasNoColon(counter);
    }
  }

  lemma OtherKind(c: Config, counter: string, axis: string, other: string, axis': string)
    requires PlainNames(c) && counter in c.counters && other in c.counters && Kind(counter, axis) == Kind(other, axis')
    ensures counter == other && axis == axis'
  {
    KindIsInjective(counter, axis, other, axis');
  }

  /** Measuring never charges a counter that notes fill. */
  lemma {:induction false} MeasureSparesNotes(c: Config, keys: Keys, values: seq<Value>, ref: Ref, counter: string,
                                              axis: string)
    requires PlainNames(c) && Measured(values, c)
    requires counter in c.counters && c.Fill(counter) == FILL_NOTE && ref.kind == Kind(counter, axis)
    ensures SumOf(MeasureCharges(values, c, keys), ref) == 0.0
  {
    if values != [] {
      var n := |values| - 1;
      MeasureSparesNotes(c, keys, values[..n], ref, counter, axis);
      ValueSparesNotes(c, keys, values[n], values[n].axes, ref, counter, axis);
      SumOfConcat(MeasureCharges(values[..n], c, keys), ValueCharges(values[n], values[n].axes, c, keys), ref);
    }
  }

  lemma {:induction false} ValueSparesNotes(c: Config, keys: Keys, v: Value, axes: seq<string>, ref: Ref, counter: string,
                                            axis: string)
    requires PlainNames(c) && c.Fill(v.counter) == FILL_MEASURE && v.counter in c.counters
    requires counter in c.counters && c.Fill(counter) == FILL_NOTE && ref.kind == Kind(counter, axis)
    ensures SumOf(ValueCharges(v, axes, c, keys), ref) == 0.0
  {
    if axes != [] {
      var n := |axes| - 1;
      ValueSparesNotes(c, keys, v, axes[..n], ref, counter, axis);
      if Kind(v.counter, axes[n]) == Kind(counter, axis) {
        OtherKind(c, v.counter, axes[n], counter, axis);
        assert false;
      }
      var before, key := ValueCharges(v, axes[..n], c, keys), KeyOf(c, keys, v.counter, axes[n]);
      if key.Some? {
        SumOfConcat(before, [Charge(RefOf(v.counter, axes[n], key.value), v.add)], ref);
      }
    }
  }

  /** The sum of what the notes on an axis add. */
  function NoteSum(notes: seq<Prior.NoteCharge>, tiers: map<string, Tier>, counter: string, axis: string): real {
    if notes == [] then 0.0
    else
      var k := |notes| - 1;
      NoteSum(notes[..k], tiers, counter, axis)
      + if notes[k].counter == counter && notes[k].axis == axis then NoteAdd(tiers, notes[k]) else 0.0
  }

  /** The notes on a bucket are charged once each. */
  lemma {:induction false} NotesCharge(c: Config, tiers: map<string, Tier>, keys: Keys, notes: seq<Prior.NoteCharge>,
                                       counter: string, axis: string, key: string)
    requires PlainNames(c) && forall n :: n in notes ==> c.HasAxis(n.counter, n.axis)
    requires c.HasAxis(counter, axis) && KeyOf(c, keys, counter, axis) == Some(key)
    ensures SumOf(NoteCharges(notes, c, keys, tiers), RefOf(counter, axis, key)) == NoteSum(notes, tiers, counter, axis)
  {
    if notes != [] {
      var k := |notes| - 1;
      var n, before := notes[k], NoteCharges(notes[..k], c, keys, tiers);
      NotesCharge(c, tiers, keys, notes[..k], counter, axis, key);
      if Kind(n.counter, n.axis) == Kind(counter, axis) {
        OtherKind(c, n.counter, n.axis, counter, axis);
      }
      var last := KeyOf(c, keys, n.counter, n.axis);
      if last.Some? {
        SumOfAppend(before, RefOf(n.counter, n.axis, last.value), NoteAdd(tiers, n), RefOf(counter, axis, key));
      }
    }
  }

  function Share(percent: int, max: real): real {
    percent as real / 100.0 * max
  }

  lemma ShareAdds(a: int, b: int, max: real)
    ensures Share(a + b, max) == Share(a, max) + Share(b, max)
  {}

  /** Together they charge the sum of their percentages, as a share of the capacity. */
  lemma {:induction false} NoteSumIsShare(notes: seq<Prior.NoteCharge>, tiers: map<string, Tier>, counter: string,
                                          axis: string)
    ensures NoteSum(notes, tiers, counter, axis)
         == Share(Prior.Noted(notes, counter, axis), TierOf(tiers, Kind(counter, axis)).max)
  {
    if notes != [] {
      var k := |notes| - 1;
      NoteSumIsShare(notes[..k], tiers, counter, axis);
      ShareAdds(Prior.Noted(notes[..k], counter, axis), notes[k].percent, TierOf(tiers, Kind(counter, axis)).max);
    }
  }

  function PercentOf(fill: real, max: real): real
    requires max > 0.0
  {
    fill / max * 100.0
  }

  lemma PercentArithmetic(held: real, n: int, max: real)
    requires max > 0.0
    ensures PercentOf(Clamp(held + Share(n, max), 0.0, max), max) == Clamp(PercentOf(held, max) + n as real, 0.0, 100.0)
  {
    var x := held + Share(n, max);
    PercentIsLinear(held, n, max);
    PercentOfClamp(x, max);
  }

  lemma PercentOfClamp(x: real, max: real)
    requires max > 0.0
    ensures PercentOf(Clamp(x, 0.0, max), max) == Clamp(PercentOf(x, max), 0.0, 100.0)
  {
    PercentOfEnds(max);
    if x < 0.0 {
      PercentOrder(x, 0.0, max);
    } else if x > max {
      PercentOrder(max, x, max);
    } else {
      PercentOrder(0.0, x, max);
      PercentOrder(x, max, max);
    }
  }

  lemma PercentOfEnds(max: real)
    requires max > 0.0
    ensures PercentOf(max, max) == 100.0 && PercentOf(0.0, max) == 0.0
  {}

  lemma PercentIsLinear(held: real, n: int, max: real)
    requires max > 0.0
    ensures PercentOf(held + Share(n, max), max) == PercentOf(held, max) + n as real
  {
    var share := n as real / 100.0;
    assert (held + share * max) / max == held / max + share;
  }

  lemma PercentOrder(x: real, y: real, max: real)
    requires max > 0.0 && x <= y
    ensures PercentOf(x, max) <= PercentOf(y, max)
  {}

  lemma NoteBucketCharges(c: Config, tiers: map<string, Tier>, keys: Keys, values: seq<Value>,
                          notes: seq<Prior.NoteCharge>, counter: string, axis: string, key: string)
    requires PlainNames(c) && Measured(values, c) && forall n :: n in notes ==> c.HasAxis(n.counter, n.axis)
    requires c.HasAxis(counter, axis) && c.Fill(counter) == FILL_NOTE && KeyOf(c, keys, counter, axis) == Some(key)
    ensures SumOf(MeasureCharges(values, c, keys) + NoteCharges(notes, c, keys, tiers), RefOf(counter, axis, key))
         == Share(Prior.Noted(notes, counter, axis), TierOf(tiers, Kind(counter, axis)).max)
  {
    var ref := RefOf(counter, axis, key);
    SumOfConcat(MeasureCharges(values, c, keys), NoteCharges(notes, c, keys, tiers), ref);
    MeasureSparesNotes(c, keys, values, ref, counter, axis);
    NotesCharge(c, tiers, keys, notes, counter, axis, key);
    NoteSumIsShare(notes, tiers, counter, axis);
  }

  /** Charging a share of the capacity moves the percent by that many points, clamped. */
  lemma ShareMovesPercent(tiers: map<string, Tier>, charges: seq<Charge>, ref: Ref, slot: Option<real>, v: Visit, n: int)
    requires TierOf(tiers, ref.kind).Enabled() && v.max == TierOf(tiers, ref.kind).max
    requires v.charge == ChargeOn(LiveOf(tiers, charges), ref) && SumOf(charges, ref) == Share(n, v.max)
    ensures PercentOf(LocalFill(slot, v), v.max)
         == Clamp(PercentOf(Held(slot, v.max, v.mark), v.max) + n as real, 0.0, 100.0)
  {
    var held := Held(slot, v.max, v.mark);
    LiveChargesFill(tiers, charges, ref, held);
    PercentArithmetic(held, n, v.max);
  }

  /** What a call charges a bucket that notes fill, when the matching notes add up to `points`. */
  lemma NoteShare(c: Config, tiers: map<string, Tier>, keys: Keys, values: seq<Value>, notes: seq<Prior.NoteCharge>,
                  counter: string, axis: string, ref: Ref, charges: seq<Charge>, points: int, max: real)
    requires PlainNames(c) && Measured(values, c) && forall n :: n in notes ==> c.HasAxis(n.counter, n.axis)
    requires c.HasAxis(counter, axis) && c.Fill(counter) == FILL_NOTE
    requires KeyOf(c, keys, counter, axis) == Some(ref.key) && ref.kind == Kind(counter, axis)
    requires charges == MeasureCharges(values, c, keys) + NoteCharges(notes, c, keys, tiers)
    requires points == Prior.Noted(notes, counter, axis) && max == TierOf(tiers, ref.kind).max
    ensures SumOf(charges, ref) == Share(points, max)
  {
    NoteBucketCharges(c, tiers, keys, values, notes, counter, axis, ref.key);
    assert ref == RefOf(counter, axis, ref.key);
  }

  /** On a counter that notes fill, the notes of a call move the percent shown from `P` to `P` plus their `points`,
      clamped once to 0..100, whatever else the call measures and in whatever order the notes come. Validated
      counters have plain names and enabled tiers (`ValidIsPlain`, `DeclaredIsEnabled`). */
  lemma NotesMovePercent(c: Config, tiers: map<string, Tier>, keys: Keys, values: seq<Value>, notes: seq<Prior.NoteCharge>,
                         counter: string, axis: string, ref: Ref, charges: seq<Charge>, points: int,
                         slot: Option<real>, v: Visit)
    requires PlainNames(c) && Measured(values, c) && forall n :: n in notes ==> c.HasAxis(n.counter, n.axis)
    requires TierOf(tiers, ref.kind).Enabled()
    requires c.HasAxis(counter, axis) && c.counters[counter].fill == "note"
    requires KeyOf(c, keys, counter, axis) == Some(ref.key) && ref.kind == Kind(counter, axis)
    requires charges == MeasureCharges(values, c, keys) + NoteCharges(notes, c, keys, tiers)
    requires points == Prior.Noted(notes, counter, axis)
    requires v.max == TierOf(tiers, ref.kind).max && v.charge == ChargeOn(LiveOf(tiers, charges), ref)
    ensures PercentOf(LocalFill(slot, v), v.max)
         == Clamp(PercentOf(Held(slot, v.max, v.mark), v.max) + points as real, 0.0, 100.0)
  {
    NoteShare(c, tiers, keys, values, notes, counter, axis, ref, charges, points, v.max);
    ShareMovesPercent(tiers, charges, ref, slot, v, points);
  }

  lemma DeliveredNotesFit(c: Config, tiers: map<string, Tier>, ds: seq<Prior.Delivery>, rules: seq<Prior.PriorRule>,
                          counter: string, axis: string)
    requires Valid(c) && IsTiers(c, tiers) && c.HasAxis(counter, axis)
    ensures PlainNames(c) && TierOf(tiers, Kind(counter, axis)).Enabled()
    ensures forall n :: n in Prior.AskOf(ds, rules, c).notes ==> c.HasAxis(n.counter, n.axis)
    ensures Prior.Noted(Prior.AskOf(ds, rules, c).notes, counter, axis) == Prior.TotalNoted(ds, rules, c, counter, axis)
  {
    ValidIsPlain(c);
    DeclaredIsEnabled(c, tiers, counter, axis);
    Prior.NotesAreReal(ds, rules, c);
    Prior.NotesAddUp(ds, rules, c, counter, axis);
  }

  /** From the neighbours' actions to the percent shown: with validated counters, a bucket that notes fill moves by
      the sum of the matching values delivered, clamped once. */
  lemma DeliveredNotesMovePercent(c: Config, tiers: map<string, Tier>, keys: Keys, values: seq<Value>,
                                  ds: seq<Prior.Delivery>, rules: seq<Prior.PriorRule>, notes: seq<Prior.NoteCharge>,
                                  counter: string, axis: string, ref: Ref, charges: seq<Charge>, points: int,
                                  slot: Option<real>, v: Visit)
    requires Valid(c) && IsTiers(c, tiers) && Measured(values, c) && c.HasAxis(counter, axis)
    requires c.counters[counter].fill == "note"
    requires KeyOf(c, keys, counter, axis) == Some(ref.key) && ref.kind == Kind(counter, axis)
    requires notes == Prior.AskOf(ds, rules, c).notes && points == Prior.TotalNoted(ds, rules, c, counter, axis)
    requires charges == MeasureCharges(values, c, keys) + NoteCharges(notes, c, keys, tiers)
    requires v.max == TierOf(tiers, ref.kind).max && v.charge == ChargeOn(LiveOf(tiers, charges), ref)
    ensures v.max > 0.0
    ensures PercentOf(LocalFill(slot, v), v.max)
         == Clamp(PercentOf(Held(slot, v.max, v.mark), v.max) + points as real, 0.0, 100.0)
  {
    DeliveredNotesFit(c, tiers, ds, rules, counter, axis);
    NotesMovePercent(c, tiers, keys, values, notes, counter, axis, ref, charges, points, slot, v);
  }

  // ---------- what one more measure charges ----------

  /** A measure more charges its counter's bucket on every axis it names, or on all the counter has if it names none:
      what it found times its weight, once per mention. Other buckets are charged as before. */
  lemma MeasureMovesBucket(c: Config, keys: Keys, measures: seq<Measure>, amounts: seq<real>, m: Measure, found: real,
                           add: real, counter: string, axis: string, key: string)
    requires PlainNames(c) && |amounts| == |measures| && m.counter in c.counters && counter in c.counters
    requires KeyOf(c, keys, counter, axis) == Some(key) && add == found * m.weight
    ensures SumOf(MeasureCharges(ValuesOf(measures + [m], c, amounts + [found]), c, keys), Ref(counter + ":" + axis, key))
         == SumOf(MeasureCharges(ValuesOf(measures, c, amounts), c, keys), Ref(counter + ":" + axis, key))
            + if m.counter != counter then 0.0
              else if m.axes != [] then Repeated(multiset(m.axes)[axis], add)
              else if axis in ["ip", "asn_net", "asn_router", "sess", "user", "conn"] && axis in c.counters[counter].axes
              then add else 0.0
    ensures ValuesOf([], c, []) == [] && MeasureCharges([], c, keys) == []
  {
    var before, axes := ValuesOf(measures, c, amounts), if m.axes == [] then Present(c, m.counter, KNOWN_AXES) else m.axes;
    MeasuredLast(measures, c, amounts, m, found);
    AxesMentioned(c, m, axes, axis, add);
    if found != 0.0 {
      ValueMovesBucket(c, keys, before, Value(m.counter, axes, add), counter, axis, key);
    }
  }

  lemma MeasuredLast(measures: seq<Measure>, c: Config, amounts: seq<real>, m: Measure, found: real)
    requires |amounts| == |measures|
    ensures ValuesOf(measures + [m], c, amounts + [found])
         == if found == 0.0 then ValuesOf(measures, c, amounts)
            else ValuesOf(measures, c, amounts)
                 + [Value(m.counter, if m.axes == [] then Present(c, m.counter, KNOWN_AXES) else m.axes, found * m.weight)]
    ensures found == 0.0 ==> found * m.weight == 0.0
  {
    assert (measures + [m])[..|measures|] == measures && (amounts + [found])[..|amounts|] == amounts;
    var all, xs, before := measures + [m], amounts + [found], ValuesOf(measures, c, amounts);
    assert all[|measures|] == m && xs[|measures|] == found;
    if found == 0.0 {
      assert ValuesOf(all, c, xs) == before + [];
    } else {
      assert ValuesOf(all, c, xs) == before + [ValueOf(m, c, found)];
      var axes := if m.axes == [] then Present(c, m.counter, KNOWN_AXES) else m.axes;
      assert ValueOf(m, c, found) == Value(m.counter, axes, found * m.weight);
    }
  }

  lemma AxesMentioned(c: Config, m: Measure, axes: seq<string>, axis: string, add: real)
    requires m.counter in c.counters && axes == if m.axes == [] then Present(c, m.counter, KNOWN_AXES) else m.axes
    ensures Repeated(multiset(axes)[axis], add)
         == if m.axes != [] then Repeated(multiset(m.axes)[axis], add)
            else if axis in ["ip", "asn_net", "asn_router", "sess", "user", "conn"] && axis in c.counters[m.counter].axes
            then add else 0.0
    ensures add == 0.0 ==> Repeated(multiset(m.axes)[axis], add) == 0.0
  {
    RepeatedNothing(multiset(m.axes)[axis]);
    if m.axes == [] {
      PresentOnce(c, m.counter, KNOWN_AXES, axis);
    }
  }

  lemma ValueMovesBucket(c: Config, keys: Keys, values: seq<Value>, v: Value, counter: string, axis: string, key: string)
    requires PlainNames(c) && v.counter in c.counters && counter in c.counters
    requires KeyOf(c, keys, counter, axis) == Some(key)
    ensures SumOf(MeasureCharges(values + [v], c, keys), RefOf(counter, axis, key))
         == SumOf(MeasureCharges(values, c, keys), RefOf(counter, axis, key))
            + if v.counter == counter then Repeated(multiset(v.axes)[axis], v.add) else 0.0
  {
    assert (values + [v])[..|values|] == values;
    SumOfConcat(MeasureCharges(values, c, keys), ValueCharges(v, v.axes, c, keys), RefOf(counter, axis, key));
    ValueOnBucket(c, keys, v, v.axes, counter, axis, key);
  }

  /** `n` times an amount, see `RepeatedIsProduct`. */
  function Repeated(n: nat, add: real): real {
    if n == 0 then 0.0 else Repeated(n - 1, add) + add
  }

  lemma {:induction false} RepeatedIsProduct(n: nat, add: real)
    ensures Repeated(n, add) == n as real * add
  {
    if n != 0 {
      RepeatedIsProduct(n - 1, add);
      assert n as real * add == (n - 1) as real * add + add;
    }
  }

  lemma {:induction false} RepeatedNothing(n: nat)
    ensures Repeated(n, 0.0) == 0.0
  {
    if n != 0 {
      RepeatedNothing(n - 1);
    }
  }

  lemma PresentOnce(c: Config, counter: string, want: seq<string>, axis: string)
    requires Distinct(want)
    ensures multiset(Present(c, counter, want))[axis] == if axis in want && c.HasAxis(counter, axis) then 1 else 0
  {
    PresentMembers(c, counter, want, axis);
    PresentDistinct(c, counter, want);
    DistinctOnce(Present(c, counter, want), axis);
  }

  lemma {:induction false} DistinctOnce(s: seq<string>, x: string)
    requires Distinct(s)
    ensures multiset(s)[x] == if x in s then 1 else 0
  {
    if s != [] {
      var n := |s| - 1;
      assert s == s[..n] + [s[n]];
      DistinctOnce(s[..n], x);
    }
  }

  lemma {:induction false} ValueOnBucket(c: Config, keys: Keys, v: Value, axes: seq<string>, counter: string, axis: string,
                                         key: string)
    requires PlainNames(c) && v.counter in c.counters && counter in c.counters
    requires KeyOf(c, keys, counter, axis) == Some(key)
    ensures SumOf(ValueCharges(v, axes, c, keys), RefOf(counter, axis, key))
         == if v.counter == counter then Repeated(multiset(axes)[axis], v.add) else 0.0
  {
    if axes != [] {
      var n, before := |axes| - 1, ValueCharges(v, axes[..|axes| - 1], c, keys);
      ValueOnBucket(c, keys, v, axes[..n], counter, axis, key);
      Mentioned(axes, axis, v.add);
      var last := KeyOf(c, keys, v.counter, axes[n]);
      if last.Some? {
        SameBucket(c, v.counter, axes[n], last.value, counter, axis, key);
        SumOfAppend(before, RefOf(v.counter, axes[n], last.value), v.add, RefOf(counter, axis, key));
      }
    }
  }

  lemma Mentioned(axes: seq<string>, axis: string, add: real)
    requires axes != []
    ensures var n := |axes| - 1;
      Repeated(multiset(axes)[axis], add) == Repeated(multiset(axes[..n])[axis], add) + if axes[n] == axis then add else 0.0
  {
    var n := |axes| - 1;
    assert axes == axes[..n] + [axes[n]];
    assert multiset(axes) == multiset(axes[..n]) + multiset{axes[n]};
  }

  lemma SameBucket(c: Config, other: string, axis': string, key': string, counter: string, axis: string, key: string)
    requires PlainNames(c) && other in c.counters && counter in c.counters
    ensures RefOf(other, axis', key') == RefOf(counter, axis, key) <==> other == counter && axis' == axis && key' == key
  {
    if Kind(other, axis') == Kind(counter, axis) {
      OtherKind(c, other, axis', counter, axis);
    }
  }

  // ---------- judging ----------

  /** `response` names the page a denial is answered with. */
  datatype Reply = Reply(verdict: Verdict, score: Option<int>, code: string, response: Option<string>,
                         would: Option<Would>) | InternalError

  /** The lookup the rules see: no subject, or the level returned, or zero for a level nobody returned. */
  function LookupOf(c: Config, keys: Keys, levels: map<Ref, real>): Lookup {
    (counter, axis) =>
      match KeyOf(c, keys, counter, axis)
      case None => None
      case Some(key) => Some(Reading(Get(levels, RefOf(counter, axis, key)).GetOr(0.0), key))
  }

  /** A rule or a probe with a key reads the level that was returned for its bucket, never the zero of an absent one,
      and a rule fires if and only if it has a key and that level is at least its threshold. */
  lemma WatchedIsRead(p: Profile, c: Config, keys: Keys, levels: map<Ref, real>, r: Rule)
    requires AllFound(p, c, keys, levels) && r in p.rules
    ensures KeyOf(c, keys, r.counter, r.axis).None? ==>
      LookupOf(c, keys, levels)(r.counter, r.axis) == None && r !in FiredRules(p.rules, LookupOf(c, keys, levels))
    ensures KeyOf(c, keys, r.counter, r.axis).Some? ==>
      var key := KeyOf(c, keys, r.counter, r.axis).value;
      && Ref(r.counter + ":" + r.axis, key) in levels
      && LookupOf(c, keys, levels)(r.counter, r.axis) == Some(Reading(levels[Ref(r.counter + ":" + r.axis, key)], key))
      && (r in FiredRules(p.rules, LookupOf(c, keys, levels)) <==> levels[Ref(r.counter + ":" + r.axis, key)] >= r.at)
  {
    RuleIsWatched(p, r);
    FiredMembers(p.rules, LookupOf(c, keys, levels), r);
  }

  lemma ProbeIsRead(p: Profile, c: Config, keys: Keys, levels: map<Ref, real>, r: SubjectRef, key: string)
    requires AllFound(p, c, keys, levels) && r in p.probes && KeyOf(c, keys, r.counter, r.axis) == Some(key)
    ensures Ref(r.counter + ":" + r.axis, key) in levels
    ensures LookupOf(c, keys, levels)(r.counter, r.axis) == Some(Reading(levels[Ref(r.counter + ":" + r.axis, key)], key))
  {
    var i :| 0 <= i < |p.probes| && p.probes[i] == r;
    assert Watched(p)[|p.rules| + i] == r;
  }

  const CODE_MEASURED := "COUNTER_MEASURED"
  const CODE_SKIPPED := "COUNTER_SKIPPED"

  /** The decision as the reply carries it. Enforced, it is shown as it is, its score scaled by the percent; observed,
      the reply lets everything pass and keeps the scaled decision aside. A frame that passes without a reason is said
      to have been measured. The one score that does not fit, above 100 and not scaled, is an internal error, and
      validated rules carry none. */
  method Conclude(p: Profile, frame: bool, percent: int, lookup: Lookup) returns (reply: Reply, ghost enforced: Decision)
    ensures Decides(enforced, FiredRules(p.rules, lookup), p.denyResponse)
    ensures reply == InternalError <==> !p.observe && enforced.verdict == Score && percent == 0 && enforced.score > 100
    ensures (forall r :: r in p.rules ==> ValidRule(r)) ==> reply.Reply?
    ensures reply.Reply? && !p.observe ==>
      && reply.verdict == enforced.verdict && reply.would == None
      && reply.score == (if enforced.verdict == Score then Some(ScaleScore(enforced.score, percent)) else None)
      && reply.code == (if enforced.verdict == Allow && frame then "COUNTER_MEASURED" else enforced.code)
      && reply.response == (if enforced.verdict == Deny then Some(p.denyResponse) else None)
    ensures p.observe ==>
      && reply.Reply? && reply.verdict == Allow && reply.score == None && reply.response == None
      && if enforced.verdict == Allow then reply.would == None && reply.code == (if frame then "COUNTER_MEASURED" else "")
         else
           && reply.code == "COUNTER_OBSERVE"
           && reply.would == Some(Would(enforced.verdict,
                                        if enforced.verdict == Score then ScaleScore(enforced.score, percent) else 0,
                                        enforced.code))
  {
    var d, audit, hidden := Decide(p.rules, p.denyResponse, p.observe, lookup);
    enforced := hidden;
    var scored := d.score;
    if d.verdict == Score {
      scored := ScaleScore(d.score, percent);
    }
    var would := d.would;
    if would.Some? && would.value.verdict == Score {
      would := Some(would.value.(score := ScaleScore(would.value.score, percent)));
    }
    if forall r :: r in p.rules ==> ValidRule(r) {
      ValidScores(p.rules, lookup, p.denyResponse, enforced);
    }
    ScaledFits(enforced.score, percent);
    var response := if d.verdict == Deny then Some(d.denyResponse) else None;
    if d.verdict == Score {
      if scored < 0 || scored > 100 {
        reply := InternalError;
        return;
      }
      reply := Reply(d.verdict, Some(scored), d.code, response, would);
    } else {
      reply := Reply(d.verdict, None, d.code, response, would);
    }
    if frame && d.verdict == Allow && d.code == "" {
      reply := reply.(code := CODE_MEASURED);
    }
  }

  /** A phase that judges, from notes and values to the reply. A skip answers before the buckets are asked, and in a
      frame after they are charged. Otherwise a rule counts as fired if and only if its subject has a key and the
      percent of its bucket, everything this phase charges included, is at least the threshold. */
  method JudgePhase(store: Store, p: Profile, c: Config, tiers: map<string, Tier>, keys: Keys, values: seq<Value>,
                    ask: Prior.Ask, frame: bool, now: real, clock: Ref -> RedisPath.Stamps)
    returns (reply: Reply, ghost charges: seq<Charge>, ghost fired: seq<Rule>, ghost enforced: Decision)
    requires Valid(c) && IsTiers(c, tiers) && ValidAgainst(p, c) && NoEmptyKeys(c, keys)
    modifies if store.client == null then {store.local as object} else {store.client as object}
    ensures ask.skip ==> reply == Reply(Allow, None, "COUNTER_SKIPPED", None, None)
    ensures ask.skip && !frame ==> unchanged(store.local) && (store.client != null ==> store.client.m == old(store.client.m))
    ensures charges == MeasureCharges(values, c, keys) + NoteCharges(ask.notes, c, keys, tiers)
    ensures !ask.skip && store.client == null ==>
      forall r :: r in fired <==>
        && r in p.rules && KeyOf(c, keys, r.counter, r.axis).Some?
        && PercentNow(old(store.local.m), tiers, charges,
                      Ref(r.counter + ":" + r.axis, KeyOf(c, keys, r.counter, r.axis).value), now) >= r.at
    ensures !ask.skip && store.client != null ==>
      forall r :: r in fired <==>
        && r in p.rules && KeyOf(c, keys, r.counter, r.axis).Some?
        && var ref := Ref(r.counter + ":" + r.axis, KeyOf(c, keys, r.counter, r.axis).value);
           RemotePercentNow(old(store.client.m), tiers, charges, ref, now, clock(ref)) >= r.at
    ensures !ask.skip ==> Decides(enforced, fired, p.denyResponse)
    ensures !ask.skip && reply.Reply? && !p.observe ==>
      && reply.verdict == enforced.verdict && reply.would == None
      && reply.score == (if enforced.verdict == Score then Some(ScaleScore(enforced.score, ask.percent)) else None)
      && reply.code == (if enforced.verdict == Allow && frame then "COUNTER_MEASURED" else enforced.code)
      && reply.response == (if enforced.verdict == Deny then Some(p.denyResponse) else None)
    ensures !ask.skip && p.observe ==>
      && reply.Reply? && reply.verdict == Allow && reply.score == None && reply.response == None
      && (reply.would.Some? <==> enforced.verdict != Allow)
      && (reply.would.Some? ==> reply.would.value.verdict == enforced.verdict && reply.would.value.code == enforced.code)
    ensures (forall r :: r in p.rules ==> ValidRule(r)) ==> reply.Reply?
  {
    charges, fired := MeasureCharges(values, c, keys) + NoteCharges(ask.notes, c, keys, tiers), [];
    enforced := Decision(Allow, 0, "", "", None);
    if ask.skip && !frame {
      reply := Reply(Allow, None, CODE_SKIPPED, None, None);
      return;
    }
    var levels, charged := Ask(store, p, c, tiers, keys, values, ask.notes, now, clock);
    if ask.skip {
      reply := Reply(Allow, None, CODE_SKIPPED, None, None);
      return;
    }
    var lookup := LookupOf(c, keys, levels);
    fired := FiredRules(p.rules, lookup);
    forall r ensures r in fired <==>
      && r in p.rules && KeyOf(c, keys, r.counter, r.axis).Some?
      && var ref := Ref(r.counter + ":" + r.axis, KeyOf(c, keys, r.counter, r.axis).value);
         ref in levels && levels[ref] >= r.at
    {
      FiredMembers(p.rules, lookup, r);
      if r in p.rules {
        WatchedIsRead(p, c, keys, levels, r);
      }
    }
    forall r | r in p.rules && KeyOf(c, keys, r.counter, r.axis).Some?
      ensures Ref(r.counter + ":" + r.axis, KeyOf(c, keys, r.counter, r.axis).value) in levels
    {
      WatchedIsRead(p, c, keys, levels, r);
    }
    reply, enforced := Conclude(p, frame, ask.percent, lookup);
  }

  // ---------- from charges to verdicts ----------

  /** With validated counters the two forms of the buckets answer alike on every run. */
  lemma ValidatedRunsAgree(c: Config, tiers: map<string, Tier>, calls: seq<Call>, k: nat)
    requires Valid(c) && IsTiers(c, tiers) && RunTimed(tiers, calls) && k < |calls|
    ensures LevelsAgree(tiers, RunOf(tiers, calls[..k]), calls[k])
  {
    ValidKeysInjective(c, tiers);
    RunsAgree(tiers, calls, k);
  }

  /** What a bucket reports within a call is what a reading right after it would show. */
  lemma ReportedIsLevelAfter(tiers: map<string, Tier>, calls: seq<Call>, i: nat)
    requires Runs.ProperRun(tiers, calls) && calls != []
    requires i < |calls[|calls| - 1].refs|
    ensures var n := |calls| - 1;
      VisitFill(Runs.LocalRun(tiers, calls[..n]), VisitsOf(tiers, calls[n].charges, calls[n].refs, calls[n].now), i)
      == Runs.LevelAfter(tiers, calls, calls[n].refs[i], calls[n].now)
  {
    var n := |calls| - 1;
    var last, before := calls[n], Runs.LocalRun(tiers, calls[..n]);
    var visits := VisitsOf(tiers, last.charges, last.refs, last.now);
    Apart(tiers, last.refs);
    assert KeysApart(visits);
    VisitedAt(before, visits, i);
    FillIsHeld(Get(before, visits[i].key), visits[i]);
  }

  lemma FillIsHeld(slot: Option<real>, v: Visit)
    requires v.max > 0.0
    ensures Held(LocalSlot(slot, v), v.max, v.mark) == LocalFill(slot, v)
  {}

  /** What the rules see of a run of calls at `now`. */
  function LookupAfter(c: Config, keys: Keys, tiers: map<string, Tier>, calls: seq<Call>, now: real): Lookup {
    (counter, axis) =>
      match KeyOf(c, keys, counter, axis)
      case None => None
      case Some(key) => Some(Reading(PercentAfter(tiers, calls, RefOf(counter, axis, key), now), key))
  }

  function PercentAfter(tiers: map<string, Tier>, calls: seq<Call>, ref: Ref, now: real): real {
    var max := TierOf(tiers, ref.kind).max;
    if max > 0.0 then PercentOf(Runs.LevelAfter(tiers, calls, ref, now), max) else 0.0
  }

  lemma HeavierPercent(tiers: map<string, Tier>, calls: seq<Call>, more: seq<Call>, ref: Ref, now: real)
    requires Runs.ProperRun(tiers, calls) && Runs.ProperRun(tiers, more) && Runs.HeavierRun(calls, more)
    requires Usable(tiers, ref) && LastClock(calls) <= now
    ensures PercentAfter(tiers, calls, ref, now) <= PercentAfter(tiers, more, ref, now)
  {
    Runs.HeavierRunIsFuller(tiers, calls, more, ref, now);
    PercentOrder(Runs.LevelAfter(tiers, calls, ref, now), Runs.LevelAfter(tiers, more, ref, now),
                 TierOf(tiers, ref.kind).max);
  }

  lemma HigherIsHarderScaled(p: Profile, low: Lookup, high: Lookup, percent: int, a: Decision, b: Decision)
    requires Higher(p.rules, low, high)
    requires Decides(a, FiredRules(p.rules, low), p.denyResponse)
    requires Decides(b, FiredRules(p.rules, high), p.denyResponse)
    ensures a.verdict == Deny ==> b.verdict == Deny
    ensures b.verdict == Allow ==> a.verdict == Allow
    ensures a.verdict == Score && b.verdict == Score ==>
      a.score <= b.score && ScaleScore(a.score, percent) <= ScaleScore(b.score, percent)
  {
    HigherIsHarder(p.rules, low, high, p.denyResponse, a, b);
    if a.verdict == Score && b.verdict == Score {
      ScaleKeepsOrder(a.score, b.score, percent);
    }
  }

  /** Charge more at the same instants and no decision taken at any later reading gets softer, in the order allow, scores
      by value, deny. */
  lemma HeavierRunIsHarder(c: Config, tiers: map<string, Tier>, keys: Keys, p: Profile, calls: seq<Call>, more: seq<Call>,
                           now: real, percent: int, a: Decision, b: Decision)
    requires Valid(c) && IsTiers(c, tiers) && ValidAgainst(p, c) && NoEmptyKeys(c, keys)
    requires Runs.ProperRun(tiers, calls) && Runs.ProperRun(tiers, more) && Runs.HeavierRun(calls, more)
    requires LastClock(calls) <= now
    requires Decides(a, FiredRules(p.rules, LookupAfter(c, keys, tiers, calls, now)), p.denyResponse)
    requires Decides(b, FiredRules(p.rules, LookupAfter(c, keys, tiers, more, now)), p.denyResponse)
    ensures a.verdict == Deny ==> b.verdict == Deny
    ensures b.verdict == Allow ==> a.verdict == Allow
    ensures a.verdict == Score && b.verdict == Score ==>
      a.score <= b.score && ScaleScore(a.score, percent) <= ScaleScore(b.score, percent)
  {
    var low, high := LookupAfter(c, keys, tiers, calls, now), LookupAfter(c, keys, tiers, more, now);
    forall r | r in p.rules
      ensures low(r.counter, r.axis).Some? ==>
        && high(r.counter, r.axis).Some?
        && low(r.counter, r.axis).value.percent <= high(r.counter, r.axis).value.percent
    {
      if KeyOf(c, keys, r.counter, r.axis).Some? {
        ReadingRises(c, tiers, keys, calls, more, now, r.counter, r.axis);
      }
    }
    HigherIsHarderScaled(p, low, high, percent, a, b);
  }

  lemma ReadingRises(c: Config, tiers: map<string, Tier>, keys: Keys, calls: seq<Call>, more: seq<Call>, now: real,
                     counter: string, axis: string)
    requires Valid(c) && IsTiers(c, tiers) && c.HasAxis(counter, axis) && NoEmptyKeys(c, keys)
    requires Runs.ProperRun(tiers, calls) && Runs.ProperRun(tiers, more) && Runs.HeavierRun(calls, more)
    requires LastClock(calls) <= now && KeyOf(c, keys, counter, axis).Some?
    ensures var key := KeyOf(c, keys, counter, axis).value;
      PercentAfter(tiers, calls, RefOf(counter, axis, key), now) <= PercentAfter(tiers, more, RefOf(counter, axis, key), now)
  {
    DeclaredIsEnabled(c, tiers, counter, axis);
    HeavierPercent(tiers, calls, more, RefOf(counter, axis, KeyOf(c, keys, counter, axis).value), now);
  }

  // ---------- the levels the last call itself returned ----------

  /** What `Phases.Ask` returns when the run's last call is its own: levels of buckets it visits, its charges
      included. */
  ghost predicate LevelsOfLast(tiers: map<string, Tier>, calls: seq<Call>, levels: map<Ref, real>) {
    && calls != []
    && var n := |calls| - 1;
       forall r :: r in levels ==>
         && r in calls[n].refs
         && levels[r] == VisitPercent(Runs.LocalRun(tiers, calls[..n]), VisitOf(tiers, calls[n].charges, r, calls[n].now), r)
  }

  lemma LevelIsPercentAfter(tiers: map<string, Tier>, calls: seq<Call>, levels: map<Ref, real>, r: Ref)
    requires Runs.ProperRun(tiers, calls) && LevelsOfLast(tiers, calls, levels) && r in levels
    ensures Usable(tiers, r) && levels[r] == PercentAfter(tiers, calls, r, LastClock(calls))
  {
    var n := |calls| - 1;
    var i :| 0 <= i < |calls[n].refs| && calls[n].refs[i] == r;
    var v, before := VisitOf(tiers, calls[n].charges, r, calls[n].now), Runs.LocalRun(tiers, calls[..n]);
    Runs.CallOnBucket(tiers, before, calls[n], r);
    FillIsHeld(Get(before, v.key), v);
  }

  /** What a rule reads of the levels its own call returned is what `LookupAfter` says of the run. */
  lemma ReadAfterRun(c: Config, tiers: map<string, Tier>, keys: Keys, p: Profile, calls: seq<Call>, levels: map<Ref, real>,
                     r: Rule)
    requires Runs.ProperRun(tiers, calls) && LevelsOfLast(tiers, calls, levels)
    requires AllFound(p, c, keys, levels) && r in p.rules
    ensures LookupOf(c, keys, levels)(r.counter, r.axis)
         == LookupAfter(c, keys, tiers, calls, LastClock(calls))(r.counter, r.axis)
  {
    WatchedIsRead(p, c, keys, levels, r);
    var key := KeyOf(c, keys, r.counter, r.axis);
    if key.Some? {
      LevelIsPercentAfter(tiers, calls, levels, RefOf(r.counter, r.axis, key.value));
    }
  }

  /** The same for the decision the code takes, on the levels its own call returned: every rule with a subject finds
      its level, and charging more at the same instants never softens the decision. */
  lemma HeavierCallIsHarder(c: Config, tiers: map<string, Tier>, keys: Keys, p: Profile, calls: seq<Call>, more: seq<Call>,
                            levels: map<Ref, real>, higher: map<Ref, real>, percent: int, a: Decision, b: Decision)
    requires Runs.ProperRun(tiers, calls) && Runs.ProperRun(tiers, more) && Runs.HeavierRun(calls, more)
    requires LevelsOfLast(tiers, calls, levels) && LevelsOfLast(tiers, more, higher)
    requires AllFound(p, c, keys, levels) && AllFound(p, c, keys, higher)
    requires Decides(a, FiredRules(p.rules, LookupOf(c, keys, levels)), p.denyResponse)
    requires Decides(b, FiredRules(p.rules, LookupOf(c, keys, higher)), p.denyResponse)
    ensures a.verdict == Deny ==> b.verdict == Deny
    ensures b.verdict == Allow ==> a.verdict == Allow
    ensures a.verdict == Score && b.verdict == Score ==>
      a.score <= b.score && ScaleScore(a.score, percent) <= ScaleScore(b.score, percent)
  {
    forall r | r in levels && r in higher ensures levels[r] <= higher[r] {
      FoundLevelsRise(tiers, calls, more, levels, higher, r);
    }
    FoundIsHigher(c, keys, p, levels, higher);
    HigherIsHarderScaled(p, LookupOf(c, keys, levels), LookupOf(c, keys, higher), percent, a, b);
  }

  lemma FoundIsHigher(c: Config, keys: Keys, p: Profile, levels: map<Ref, real>, higher: map<Ref, real>)
    requires AllFound(p, c, keys, levels) && AllFound(p, c, keys, higher)
    requires forall r :: r in levels && r in higher ==> levels[r] <= higher[r]
    ensures Higher(p.rules, LookupOf(c, keys, levels), LookupOf(c, keys, higher))
  {
    var low, high := LookupOf(c, keys, levels), LookupOf(c, keys, higher);
    forall r | r in p.rules
      ensures low(r.counter, r.axis).Some? ==>
        && high(r.counter, r.axis).Some?
        && low(r.counter, r.axis).value.percent <= high(r.counter, r.axis).value.percent
    {
      RuleIsWatched(p, r);
    }
  }

  lemma RuleIsWatched(p: Profile, r: Rule)
    requires r in p.rules
    ensures SubjectRef(r.counter, r.axis) in Watched(p)
  {
    var i :| 0 <= i < |p.rules| && p.rules[i] == r;
    assert Watched(p)[i] == SubjectRef(r.counter, r.axis);
  }

  lemma FoundLevelsRise(tiers: map<string, Tier>, calls: seq<Call>, more: seq<Call>, levels: map<Ref, real>,
                        higher: map<Ref, real>, ref: Ref)
    requires Runs.ProperRun(tiers, calls) && Runs.ProperRun(tiers, more) && Runs.HeavierRun(calls, more)
    requires LevelsOfLast(tiers, calls, levels) && LevelsOfLast(tiers, more, higher) && ref in levels && ref in higher
    ensures levels[ref] <= higher[ref]
  {
    LevelIsPercentAfter(tiers, calls, levels, ref);
    LevelIsPercentAfter(tiers, more, higher, ref);
    assert Runs.HeavierCall(calls[|calls| - 1], more[|more| - 1]);
    HeavierPercent(tiers, calls, more, ref, LastClock(calls));
  }
}
