/** Many calls charging one Redis bucket at once. The pipeline of a call is not a transaction: the commands
    of different calls interleave freely, the corrective SET may lag arbitrarily behind, a call may die at
    any point, and the key may vanish at any moment. Clocks of different callers need not agree. */
module Interleaving {
  import opened Wrappers
  import opened Tiers
  import opened Ledgers
  import opened RedisPath

  /** What a call has done so far; each carries its own mark and charge in a `Visit`. */
  datatype Stage =
    | Begun(visit: Visit)
    | Based(visit: Visit)
    | Counted(visit: Visit, raw: real)
    | Answered(visit: Visit, effective: real)
    | Died(visit: Visit, seen: Option<real>)

  /** The stored value, the calls by number, the latest mark any caller has read, and the call whose
      increment came last. */
  datatype State = State(value: Option<real>, calls: map<nat, Stage>, latest: Option<real>, last: Option<nat>)

  const START := State(None, map[], None, None)

  datatype Step =
    | Begin(id: nat, visit: Visit)
    | SetBase(id: nat)
    | Increment(id: nat)
    | Correct(id: nat)
    | Die(id: nat)
    | Vanish

  predicate Enabled(s: State, step: Step, max: real) {
    match step
    case Begin(id, v) => id !in s.calls && v.charge.Some? && v.max == max
    case SetBase(id) => id in s.calls && s.calls[id].Begun?
    case Increment(id) => id in s.calls && s.calls[id].Based?
    case Correct(id) => id in s.calls && s.calls[id].Counted?
    case Die(id) => id in s.calls && (s.calls[id].Begun? || s.calls[id].Based? || s.calls[id].Counted?)
    case Vanish => true
  }

  function Latest(t: Option<real>, mark: real): Option<real> {
    if t.Some? && t.value >= mark then t else Some(mark)
  }

  function Take(s: State, step: Step, max: real): State
    requires Enabled(s, step, max)
  {
    match step
    case Begin(id, v) => s.(calls := s.calls[id := Begun(v)], latest := Latest(s.latest, v.mark))
    case SetBase(id) =>
      var v := s.calls[id].visit;
      s.(value := if s.value.None? then Some(v.mark) else s.value, calls := s.calls[id := Based(v)])
    case Increment(id) =>
      var v := s.calls[id].visit;
      var raw := s.value.GetOr(0.0) + v.charge.GetOr(0.0);
      s.(value := Some(raw), calls := s.calls[id := Counted(v, raw)], last := Some(id))
    case Correct(id) =>
      var v := s.calls[id].visit;
      var a := Assess(s.calls[id].raw, v);
      s.(value := if a.fix then Some(v.mark + a.effective) else s.value, calls := s.calls[id := Answered(v, a.effective)])
    case Die(id) =>
      var raw := if s.calls[id].Counted? then Some(s.calls[id].raw) else None;
      s.(calls := s.calls[id := Died(s.calls[id].visit, raw)])
    case Vanish => s.(value := None)
  }

  ghost predicate Run(trace: seq<State>, steps: seq<Step>, max: real) {
    && |trace| == |steps| + 1 && trace[0] == START
    && forall i :: 0 <= i < |steps| ==> Enabled(trace[i], steps[i], max) && trace[i + 1] == Take(trace[i], steps[i], max)
  }

  // ---------- the bound ----------

  /** The call has made its increment, saw `raw`, and its SET is still to come (or never will). */
  predicate Owes(stage: Stage, raw: real) {
    || (stage.Counted? && stage.raw == raw)
    || (stage.Died? && stage.seen == Some(raw))
  }

  ghost predicate Overfull(s: State, max: real) {
    s.value.Some? && (s.latest.None? || s.value.value > s.latest.value + max)
  }

  ghost predicate Bounded(s: State, max: real) {
    && (forall id :: id in s.calls ==>
          && s.calls[id].visit.charge.Some? && s.calls[id].visit.max == max
          && s.latest.Some? && s.calls[id].visit.mark <= s.latest.value)
    && (Overfull(s, max) ==>
          && s.latest.Some? && s.last.Some? && s.last.value in s.calls
          && Owes(s.calls[s.last.value], s.value.value)
          && Assess(s.value.value, s.calls[s.last.value].visit).fix)
  }

  lemma StepKeepsBound(s: State, step: Step, max: real)
    requires max > 0.0 && Bounded(s, max) && Enabled(s, step, max)
    ensures Bounded(Take(s, step, max), max)
  {
    var s' := Take(s, step, max);
    match step
    case Begin(id, v) =>
    case SetBase(id) =>
    case Increment(id) =>
    case Correct(id) =>
      assert s.calls[id].visit.mark + max <= s.latest.value + max;
    case Die(id) =>
    case Vanish =>
  }

  lemma {:induction false} RunKeepsBound(trace: seq<State>, steps: seq<Step>, max: real, i: nat)
    requires max > 0.0 && Run(trace, steps, max) && i < |trace|
    ensures Bounded(trace[i], max)
  {
    if i > 0 {
      RunKeepsBound(trace, steps, max, i - 1);
      StepKeepsBound(trace[i - 1], steps[i - 1], max);
    }
  }

  /** Whenever the stored value stands for more than a full bucket, the call that incremented it last has
      seen exactly this value and still owes the correction. */
  lemma OverfullIsOwed(trace: seq<State>, steps: seq<Step>, max: real, i: nat)
    requires max > 0.0 && Run(trace, steps, max) && i < |trace|
    ensures Overfull(trace[i], max) ==>
      && trace[i].last.Some? && trace[i].last.value in trace[i].calls
      && Owes(trace[i].calls[trace[i].last.value], trace[i].value.value)
      && Assess(trace[i].value.value, trace[i].calls[trace[i].last.value].visit).fix
  {
    RunKeepsBound(trace, steps, max, i);
  }

  /** So once every call has been answered, the bucket is at most full. */
  lemma QuietMeansAtMostFull(trace: seq<State>, steps: seq<Step>, max: real, i: nat)
    requires max > 0.0 && Run(trace, steps, max) && i < |trace|
    requires forall id :: id in trace[i].calls ==> trace[i].calls[id].Answered?
    ensures trace[i].value.Some? ==> trace[i].latest.Some? && trace[i].value.value <= trace[i].latest.value + max
  {
    RunKeepsBound(trace, steps, max, i);
  }

  // ---------- what callers are told ----------

  /** However the commands interleave, a caller is told at least its own charge and at most a full bucket. */
  ghost predicate Truthful(s: State, max: real) {
    forall id :: id in s.calls && s.calls[id].Answered? ==>
      var v := s.calls[id].visit;
      v.charge.Some? && Clamp(v.charge.value, 0.0, max) <= s.calls[id].effective <= max
  }

  lemma {:induction false} CallersAreTold(trace: seq<State>, steps: seq<Step>, max: real, i: nat)
    requires max > 0.0 && Run(trace, steps, max) && i < |trace|
    ensures Truthful(trace[i], max)
  {
    if i > 0 {
      CallersAreTold(trace, steps, max, i - 1);
      RunKeepsBound(trace, steps, max, i - 1);
      AnswerIsTruthful(trace[i - 1], steps[i - 1], max);
    }
  }

  lemma AnswerIsTruthful(s: State, step: Step, max: real)
    requires max > 0.0 && Bounded(s, max) && Enabled(s, step, max) && Truthful(s, max)
    ensures Truthful(Take(s, step, max), max)
  {
    var s' := Take(s, step, max);
    forall id | id in s'.calls && s'.calls[id].Answered?
      ensures s'.calls[id].visit.charge.Some?
      ensures Clamp(s'.calls[id].visit.charge.value, 0.0, max) <= s'.calls[id].effective <= max
    {
      if !(id in s.calls && s.calls[id].Answered?) {
        assert step == Correct(id);
        var v := s.calls[id].visit;
        assert s'.calls[id].effective == Assess(s.calls[id].raw, v).effective;
      }
    }
  }

  // ---------- what interleaving may and may not lose ----------

  ghost predicate Uncorrected(trace: seq<State>, steps: seq<Step>)
    requires |trace| == |steps| + 1
  {
    forall i :: 0 <= i < |steps| ==>
      && !steps[i].Vanish?
      && (steps[i].Correct? && steps[i].id in trace[i].calls && trace[i].calls[steps[i].id].Counted? ==>
            !Assess(trace[i].calls[steps[i].id].raw, trace[i].calls[steps[i].id].visit).fix)
  }

  /** The charges of the first `i` steps. */
  function Counts(trace: seq<State>, steps: seq<Step>, i: nat): real
    requires i <= |steps| < |trace|
  {
    if i == 0 then 0.0
    else
      var step, s := steps[i - 1], trace[i - 1];
      Counts(trace, steps, i - 1)
      + if step.Increment? && step.id in s.calls then s.calls[step.id].visit.charge.GetOr(0.0) else 0.0
  }

  ghost predicate HasBase(trace: seq<State>, steps: seq<Step>, i: nat, base: real)
    requires i <= |steps| < |trace|
  {
    exists j :: 0 <= j < i && steps[j].SetBase? && steps[j].id in trace[j].calls
             && trace[j].calls[steps[j].id].visit.mark == base
  }

  /** What the corrections of the first `i` steps took from the stored value, less what they added. */
  function Erased(trace: seq<State>, steps: seq<Step>, i: nat): real
    requires i <= |steps| < |trace|
  {
    if i == 0 then 0.0
    else
      Erased(trace, steps, i - 1)
      + if steps[i - 1].Correct? then trace[i - 1].value.GetOr(0.0) - trace[i].value.GetOr(0.0) else 0.0
  }

  /** While the key stays, the stored value is some caller's base plus every increment made so far, less what the
      corrections erased, in any interleaving; so it lacks charges exactly as far as corrections erased some. */
  lemma {:induction false} StoredIsAccounted(trace: seq<State>, steps: seq<Step>, max: real, i: nat)
    requires Run(trace, steps, max) && i < |trace| && forall k :: 0 <= k < |steps| ==> !steps[k].Vanish?
    ensures trace[i].value.Some? ==>
      exists base :: HasBase(trace, steps, i, base)
        && trace[i].value.value == base + Counts(trace, steps, i) - Erased(trace, steps, i)
    ensures trace[i].value.None? ==>
      && Counts(trace, steps, i) == Erased(trace, steps, i) == 0.0
      && forall id :: id in trace[i].calls ==> !trace[i].calls[id].Based? && !trace[i].calls[id].Counted?
  {
    if i > 0 {
      StoredIsAccounted(trace, steps, max, i - 1);
      var s, step := trace[i - 1], steps[i - 1];
      if s.value.Some? {
        var base :| HasBase(trace, steps, i - 1, base)
          && s.value.value == base + Counts(trace, steps, i - 1) - Erased(trace, steps, i - 1);
        assert HasBase(trace, steps, i, base);
        assert trace[i].value == Some(base + Counts(trace, steps, i) - Erased(trace, steps, i));
      } else if step.SetBase? {
        assert HasBase(trace, steps, i, s.calls[step.id].visit.mark);
        assert trace[i].value == Some(s.calls[step.id].visit.mark);
      }
    }
  }

  lemma {:induction false} UncorrectedErasesNothing(trace: seq<State>, steps: seq<Step>, max: real, i: nat)
    requires Run(trace, steps, max) && Uncorrected(trace, steps) && i < |trace|
    ensures Erased(trace, steps, i) == 0.0
  {
    if i > 0 {
      UncorrectedErasesNothing(trace, steps, max, i - 1);
    }
  }

  /** In particular nothing is lost while no answer calls for a correction. */
  lemma UncorrectedLosesNothing(trace: seq<State>, steps: seq<Step>, max: real, i: nat)
    requires Run(trace, steps, max) && Uncorrected(trace, steps) && i < |trace|
    ensures trace[i].value.Some? ==>
      exists base :: HasBase(trace, steps, i, base) && trace[i].value.value == base + Counts(trace, steps, i)
    ensures trace[i].value.None? ==> Counts(trace, steps, i) == 0.0
  {
    StoredIsAccounted(trace, steps, max, i);
    UncorrectedErasesNothing(trace, steps, max, i);
  }

  // ---------- at one clock reading: exactly when a charge can get lost ----------

  /** Any interleaving from a given state on, in which only calls with the clock reading of `mark` take part and the
      key stays. Calls may still begin, and may die. */
  ghost predicate RunFrom(from: State, trace: seq<State>, steps: seq<Step>, max: real, mark: real) {
    && |trace| == |steps| + 1 && trace[0] == from
    && forall i :: 0 <= i < |steps| ==>
         && Enabled(trace[i], steps[i], max) && trace[i + 1] == Take(trace[i], steps[i], max)
         && !steps[i].Vanish? && (steps[i].Begin? ==> Ours(steps[i].visit, max, mark))
  }

  predicate Ours(v: Visit, max: real, mark: real) {
    v.mark == mark && v.max == max && v.charge.Some? && v.charge.value >= 0.0
  }

  /** Nobody is between increment and answer, and whoever has begun reads the clock at `mark`. */
  ghost predicate Settled(s: State, max: real, mark: real) {
    s.value.Some? && forall id :: id in s.calls ==>
      var c := s.calls[id];
      !c.Counted? && (c.Begun? || c.Based? ==> Ours(c.visit, max, mark))
  }

  /** The stored value is at least the sum of all increments, up to the cap; no answer calls for a correction but at
      the cap. */
  ghost predicate Complete(s: State, max: real, mark: real, sum: real) {
    && s.value.Some? && mark <= s.value.value <= sum && Clamp(s.value.value - mark, 0.0, max) == Clamp(sum - mark, 0.0, max)
    && forall id :: id in s.calls ==>
         var c := s.calls[id];
         && (c.Begun? || c.Based? || c.Counted? ==> Ours(c.visit, max, mark))
         && (c.Counted? ==> mark + c.visit.charge.GetOr(0.0) <= c.raw <= sum)
  }

  lemma StepStaysComplete(s: State, step: Step, max: real, mark: real, sum: real)
    requires max > 0.0 && Complete(s, max, mark, sum) && Enabled(s, step, max) && !step.Vanish?
    requires step.Begin? ==> Ours(step.visit, max, mark)
    ensures Complete(Take(s, step, max), max, mark,
                     sum + if step.Increment? then s.calls[step.id].visit.charge.GetOr(0.0) else 0.0)
  {}

  lemma {:induction false} RunStaysComplete(from: State, trace: seq<State>, steps: seq<Step>, max: real, mark: real, i: nat)
    requires max > 0.0 && RunFrom(from, trace, steps, max, mark) && i < |trace|
    requires Settled(from, max, mark) && from.value.value >= mark
    ensures Complete(trace[i], max, mark, from.value.value + Counts(trace, steps, i))
  {
    if i > 0 {
      RunStaysComplete(from, trace, steps, max, mark, i - 1);
      StepStaysComplete(trace[i - 1], steps[i - 1], max, mark, from.value.value + Counts(trace, steps, i - 1));
    }
  }

  /** The bucket holds, at the calls' clock reading, what it held before plus all increments. */
  ghost predicate NothingLost(from: State, trace: seq<State>, steps: seq<Step>, max: real, mark: real)
    requires |trace| == |steps| + 1
  {
    Held(trace[|steps|].value, max, mark)
    == Clamp(Held(from.value, max, mark) + Counts(trace, steps, |steps|), 0.0, max)
  }

  /** Over a bucket not yet drained, no interleaving of any number of calls at one clock reading loses a charge. */
  lemma UndrainedLosesNothing(from: State, trace: seq<State>, steps: seq<Step>, max: real, mark: real)
    requires max > 0.0 && RunFrom(from, trace, steps, max, mark)
    requires Settled(from, max, mark) && from.value.value >= mark
    ensures NothingLost(from, trace, steps, max, mark)
  {
    RunStaysComplete(from, trace, steps, max, mark, |steps|);
    CountsNonNegative(from, trace, steps, max, mark, |steps|);
  }

  lemma {:induction false} CountsNonNegative(from: State, trace: seq<State>, steps: seq<Step>, max: real, mark: real, i: nat)
    requires max > 0.0 && RunFrom(from, trace, steps, max, mark) && i < |trace|
    requires Settled(from, max, mark) && from.value.value >= mark
    ensures Counts(trace, steps, i) >= 0.0
  {
    if i > 0 {
      CountsNonNegative(from, trace, steps, max, mark, i - 1);
      RunStaysComplete(from, trace, steps, max, mark, i - 1);
    }
  }

  /** With two calls under way a charge can get lost if and only if the bucket had drained: the stored value was
      below the mark. */
  lemma ChargesAreSafeExactly(from: State, one: nat, two: nat, max: real, mark: real)
    requires max > 0.0 && Settled(from, max, mark) && one != two
    requires Small(from, one, max) && Small(from, two, max)
    ensures (forall trace, steps :: RunFrom(from, trace, steps, max, mark) ==> NothingLost(from, trace, steps, max, mark))
        <==> from.value.value >= mark
  {
    if from.value.value >= mark {
      forall trace, steps | RunFrom(from, trace, steps, max, mark) ensures NothingLost(from, trace, steps, max, mark) {
        UndrainedLosesNothing(from, trace, steps, max, mark);
      }
    } else {
      var trace, steps := LosingRun(from, one, two, max, mark);
    }
  }

  /** About to increment, by less than a bucketful. */
  predicate Small(s: State, id: nat, max: real) {
    id in s.calls && s.calls[id].Based? && s.calls[id].visit.charge.Some? && 0.0 < s.calls[id].visit.charge.value < max
  }

  /** Both increment, the second is answered first, and the correction of the first overwrites its charge. */
  lemma LosingRun(from: State, one: nat, two: nat, max: real, mark: real) returns (trace: seq<State>, steps: seq<Step>)
    requires max > 0.0 && Settled(from, max, mark) && one != two && from.value.value < mark
    requires Small(from, one, max) && Small(from, two, max)
    ensures RunFrom(from, trace, steps, max, mark) && !NothingLost(from, trace, steps, max, mark)
  {
    var s1 := Take(from, Increment(one), max);
    var s2 := Take(s1, Increment(two), max);
    var s3 := Take(s2, Correct(two), max);
    var s4 := Take(s3, Correct(one), max);
    trace, steps := [from, s1, s2, s3, s4], [Increment(one), Increment(two), Correct(two), Correct(one)];
    var c, d := from.calls[one].visit.charge.value, from.calls[two].visit.charge.value;
    assert s4.value == Some(mark + c);
    assert Counts(trace, steps, 1) == c;
    assert Counts(trace, steps, 2) == c + d;
    assert Counts(trace, steps, 3) == c + d;
    assert Counts(trace, steps, 4) == c + d;
  }

  // ---------- at different clock readings ----------

  predicate Among(v: Visit, max: real, lo: real, hi: real) {
    lo <= v.mark <= hi && v.max == max && v.charge.Some? && v.charge.value >= 0.0
  }

  /** Any interleaving from a given state on, of calls whose clocks read marks from `lo` to `hi`, while the key stays. */
  ghost predicate RunAmong(from: State, trace: seq<State>, steps: seq<Step>, max: real, lo: real, hi: real) {
    && |trace| == |steps| + 1 && trace[0] == from
    && forall i :: 0 <= i < |steps| ==>
         && Enabled(trace[i], steps[i], max) && trace[i + 1] == Take(trace[i], steps[i], max)
         && !steps[i].Vanish? && (steps[i].Begin? ==> Among(steps[i].visit, max, lo, hi))
  }

  ghost predicate SettledAmong(s: State, max: real, lo: real, hi: real) {
    s.value.Some? && forall id :: id in s.calls ==>
      var c := s.calls[id];
      !c.Counted? && (c.Begun? || c.Based? ==> Among(c.visit, max, lo, hi))
  }

  /** The stored value is the sum, which fits every caller's cap, and no caller has reason to correct it. */
  ghost predicate Exact(s: State, max: real, lo: real, hi: real, sum: real) {
    && s.value == Some(sum) && hi <= sum
    && forall id :: id in s.calls ==>
         var c := s.calls[id];
         && (c.Begun? || c.Based? || c.Counted? ==> Among(c.visit, max, lo, hi))
         && (c.Counted? ==> hi + c.visit.charge.GetOr(0.0) <= c.raw <= sum)
  }

  function Amount(s: State, step: Step): real {
    if step.Increment? && step.id in s.calls then s.calls[step.id].visit.charge.GetOr(0.0) else 0.0
  }

  lemma StepStaysExact(s: State, step: Step, max: real, lo: real, hi: real, sum: real)
    requires max > 0.0 && Exact(s, max, lo, hi, sum) && Enabled(s, step, max) && !step.Vanish?
    requires step.Begin? ==> Among(step.visit, max, lo, hi)
    requires sum <= lo + max
    ensures Amount(s, step) >= 0.0 && Exact(Take(s, step, max), max, lo, hi, sum + Amount(s, step))
  {}

  ghost predicate AllAmong(s: State, max: real, lo: real, hi: real) {
    forall id :: id in s.calls ==>
      var c := s.calls[id]; c.Begun? || c.Based? || c.Counted? ==> Among(c.visit, max, lo, hi)
  }

  lemma StepStaysAmong(s: State, step: Step, max: real, lo: real, hi: real)
    requires AllAmong(s, max, lo, hi) && Enabled(s, step, max) && (step.Begin? ==> Among(step.visit, max, lo, hi))
    ensures AllAmong(Take(s, step, max), max, lo, hi) && Amount(s, step) >= 0.0
  {}

  lemma {:induction false} IncrementsGrow(from: State, trace: seq<State>, steps: seq<Step>, max: real, lo: real, hi: real,
                                          i: nat)
    requires RunAmong(from, trace, steps, max, lo, hi) && SettledAmong(from, max, lo, hi) && i < |trace|
    ensures AllAmong(trace[i], max, lo, hi)
    ensures i > 0 ==> Counts(trace, steps, i - 1) <= Counts(trace, steps, i)
  {
    if i > 0 {
      IncrementsGrow(from, trace, steps, max, lo, hi, i - 1);
      StepStaysAmong(trace[i - 1], steps[i - 1], max, lo, hi);
    }
  }

  lemma {:induction false} RunStaysExact(from: State, trace: seq<State>, steps: seq<Step>, max: real, lo: real, hi: real,
                                         i: nat)
    requires max > 0.0 && RunAmong(from, trace, steps, max, lo, hi) && i < |trace|
    requires SettledAmong(from, max, lo, hi) && hi <= from.value.value
    requires from.value.value + Counts(trace, steps, i) <= lo + max
    ensures Exact(trace[i], max, lo, hi, from.value.value + Counts(trace, steps, i))
  {
    if i > 0 {
      IncrementsGrow(from, trace, steps, max, lo, hi, i);
      RunStaysExact(from, trace, steps, max, lo, hi, i - 1);
      StepStaysExact(trace[i - 1], steps[i - 1], max, lo, hi, from.value.value + Counts(trace, steps, i - 1));
    }
  }

  /** Callers that read different clocks lose nothing either: over a bucket not drained at the latest reading, as long as
      the increments fit the cap at the earliest, every interleaving leaves exactly what was stored plus all of them. */
  lemma DifferentClocksLoseNothing(from: State, trace: seq<State>, steps: seq<Step>, max: real, lo: real, hi: real)
    requires max > 0.0 && RunAmong(from, trace, steps, max, lo, hi)
    requires SettledAmong(from, max, lo, hi) && hi <= from.value.value
    requires from.value.value + Counts(trace, steps, |steps|) <= lo + max
    ensures trace[|steps|].value == Some(from.value.value + Counts(trace, steps, |steps|))
  {
    RunStaysExact(from, trace, steps, max, lo, hi, |steps|);
  }

  function Final(trace: seq<State>): State
    requires trace != []
  {
    trace[|trace| - 1]
  }

  lemma Advance(trace: seq<State>, steps: seq<Step>, max: real, step: Step) returns (trace': seq<State>, steps': seq<Step>)
    requires Run(trace, steps, max) && Enabled(Final(trace), step, max)
    ensures Run(trace', steps', max) && Final(trace') == Take(Final(trace), step, max)
  {
    trace', steps' := trace + [Take(Final(trace), step, max)], steps + [step];
  }

  const OLD := Visit("k", 100.0, 1000.0, Some(0.0))
  const NEW := Visit("k", 100.0, 2000.0, Some(60.0))

  function Trio(value: real, one: Stage, two: Stage, last: nat): State {
    State(Some(value), map[0 := Answered(OLD, 0.0), 1 := one, 2 := two], Some(2000.0), Some(last))
  }

  lemma DrainedKey() returns (trace: seq<State>, steps: seq<Step>)
    ensures Run(trace, steps, 100.0) && Final(trace) == Trio(1000.0, Based(NEW), Based(NEW), 0)
  {
    trace, steps := [START], [];
    trace, steps := Advance(trace, steps, 100.0, Begin(0, OLD));
    trace, steps := Advance(trace, steps, 100.0, SetBase(0));
    trace, steps := Advance(trace, steps, 100.0, Increment(0));
    trace, steps := Advance(trace, steps, 100.0, Correct(0));
    assert Final(trace) == State(Some(1000.0), map[0 := Answered(OLD, 0.0)], Some(1000.0), Some(0));
    trace, steps := Advance(trace, steps, 100.0, Begin(1, NEW));
    trace, steps := Advance(trace, steps, 100.0, Begin(2, NEW));
    trace, steps := Advance(trace, steps, 100.0, SetBase(1));
    trace, steps := Advance(trace, steps, 100.0, SetBase(2));
  }

  /** A correction may erase a charge made meanwhile: over a drained key, two calls charge 60 of 100 each
      at the same moment, both are answered, and the bucket holds 60. */
  lemma CorrectionsMayEraseACharge()
    ensures exists trace, steps ::
      && Run(trace, steps, 100.0)
      && Final(trace) == Trio(2060.0, Answered(NEW, 60.0), Answered(NEW, 60.0), 2)
      && Held(Final(trace).value, 100.0, 2000.0) == 60.0
  {
    var trace, steps := DrainedKey();
    trace, steps := Advance(trace, steps, 100.0, Increment(1));
    trace, steps := Advance(trace, steps, 100.0, Increment(2));
    assert Final(trace) == Trio(1120.0, Counted(NEW, 1060.0), Counted(NEW, 1120.0), 2);
    trace, steps := Advance(trace, steps, 100.0, Correct(1));
    trace, steps := Advance(trace, steps, 100.0, Correct(2));
    assert Final(trace) == Trio(2060.0, Answered(NEW, 60.0), Answered(NEW, 60.0), 2);
  }
}
