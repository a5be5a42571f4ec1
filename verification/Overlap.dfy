/** Any number of calls on one Redis bucket that all increment before the first is answered: what the corrections, made
    in the same order, leave behind. */
module Overlap {
  import opened Wrappers
  import opened Tiers
  import opened Ledgers
  import opened RedisPath
  import opened Refs
  import opened Interleaving

  /** The calls are about to increment, at one clock reading, each by less than a bucketful. */
  ghost predicate UnderWay(s: State, ids: seq<nat>, max: real, mark: real) {
    && s.value.Some? && Distinct(ids)
    && forall i :: 0 <= i < |ids| ==>
         Small(s, ids[i], max) && s.calls[ids[i]].visit.mark == mark && s.calls[ids[i]].visit.max == max
  }

  function ChargeOf(s: State, id: nat): real {
    if id in s.calls then s.calls[id].visit.charge.GetOr(0.0) else 0.0
  }

  /** The charges of the first `n` calls. */
  function SumTo(s: State, ids: seq<nat>, n: nat): real
    requires n <= |ids|
  {
    if n == 0 then 0.0 else SumTo(s, ids, n - 1) + ChargeOf(s, ids[n - 1])
  }

  /** The first `n` calls increment, in this order. */
  function IncrementAll(s: State, ids: seq<nat>, n: nat, max: real): State
    requires n <= |ids|
  {
    if n == 0 then s
    else
      var p, step := IncrementAll(s, ids, n - 1, max), Increment(ids[n - 1]);
      if Enabled(p, step, max) then Take(p, step, max) else p
  }

  /** The first `n` calls are answered, in this order. */
  function CorrectAll(s: State, ids: seq<nat>, n: nat, max: real): State
    requires n <= |ids|
  {
    if n == 0 then s
    else
      var p, step := CorrectAll(s, ids, n - 1, max), Correct(ids[n - 1]);
      if Enabled(p, step, max) then Take(p, step, max) else p
  }

  /** After `n` increments: the value, the calls that made them, and the others. */
  lemma {:induction false} AfterIncrements(s: State, ids: seq<nat>, n: nat, max: real, mark: real, i: nat)
    requires UnderWay(s, ids, max, mark) && n <= |ids| && i < |ids|
    ensures var r := IncrementAll(s, ids, n, max);
      && r.value == Some(s.value.value + SumTo(s, ids, n)) && ids[i] in r.calls
      && r.calls[ids[i]] == if i < n then Counted(s.calls[ids[i]].visit, s.value.value + SumTo(s, ids, i + 1))
                            else s.calls[ids[i]]
  {
    if n > 0 {
      AfterIncrements(s, ids, n - 1, max, mark, i);
      AfterIncrements(s, ids, n - 1, max, mark, n - 1);
    }
  }

  predicate Fixes(s: State, id: nat) {
    id in s.calls && s.calls[id].Counted? && Assess(s.calls[id].raw, s.calls[id].visit).fix
  }

  ghost predicate AllCounted(s: State, ids: seq<nat>) {
    Distinct(ids) && forall i :: 0 <= i < |ids| ==> ids[i] in s.calls && s.calls[ids[i]].Counted?
  }

  lemma {:induction false} OthersStay(s: State, ids: seq<nat>, n: nat, max: real, i: nat)
    requires AllCounted(s, ids) && n <= i < |ids|
    ensures var r := CorrectAll(s, ids, n, max); ids[i] in r.calls && r.calls[ids[i]] == s.calls[ids[i]]
  {
    if n > 0 {
      OthersStay(s, ids, n - 1, max, i);
      OthersStay(s, ids, n - 1, max, n - 1);
    }
  }

  /** The value after the answers is that of the last correction, if there was one. */
  lemma {:induction false} LastCorrectionCounts(s: State, ids: seq<nat>, n: nat, max: real) returns (last: int)
    requires AllCounted(s, ids) && n <= |ids|
    ensures -1 <= last < n && forall i :: last < i < n ==> !Fixes(s, ids[i])
    ensures last == -1 ==> CorrectAll(s, ids, n, max).value == s.value
    ensures last >= 0 ==> Fixes(s, ids[last]) && CorrectAll(s, ids, n, max).value == Some(Correction(s, ids[last]))
  {
    last := -1;
    if n > 0 {
      last := LastCorrectionCounts(s, ids, n - 1, max);
      OthersStay(s, ids, n - 1, max, n - 1);
      if Fixes(s, ids[n - 1]) {
        last := n - 1;
      }
    }
  }

  function Correction(s: State, id: nat): real
    requires Fixes(s, id)
  {
    var c := s.calls[id];
    c.visit.mark + Assess(c.raw, c.visit).effective
  }

  lemma {:induction false} SumsGrow(s: State, ids: seq<nat>, max: real, mark: real, i: nat, n: nat)
    requires UnderWay(s, ids, max, mark) && i <= n <= |ids|
    ensures SumTo(s, ids, i) <= SumTo(s, ids, n) && (i < n ==> SumTo(s, ids, i) < SumTo(s, ids, n))
    decreases n - i
  {
    if i < n {
      SumsGrow(s, ids, max, mark, i, n - 1);
      assert Small(s, ids[n - 1], max);
    }
  }

  /** The case distinction, on the numbers: the last correction is to its charge alone, or to the full bucket. */
  lemma LastCorrectionDecides(x: real, before: real, charge: real, total: real, v: Visit, top: bool)
    requires v.charge == Some(charge) && 0.0 < charge < v.max && 0.0 <= before && before + charge <= total
    requires charge < total && x <= v.mark + v.max && (top ==> before + charge == total)
    requires x + total > v.mark + v.max ==> top
    requires Assess(x + (before + charge), v).fix
    ensures Held(Some(v.mark + Assess(x + (before + charge), v).effective), v.max, v.mark)
              == Clamp(Held(Some(x), v.max, v.mark) + total, 0.0, v.max)
        <==> x >= v.mark || x + total > v.mark + v.max
  {}

  lemma CallSees(s: State, ids: seq<nat>, max: real, mark: real, i: nat)
    requires UnderWay(s, ids, max, mark) && i < |ids|
    ensures var r := IncrementAll(s, ids, |ids|, max);
      && ids[i] in r.calls
      && r.calls[ids[i]] == Counted(s.calls[ids[i]].visit, s.value.value + (SumTo(s, ids, i) + ChargeOf(s, ids[i])))
  {
    AfterIncrements(s, ids, |ids|, max, mark, i);
  }

  /** Two or more calls at one clock reading that all increment before the first is answered, and are answered in the
      order of their increments, leave the bucket with the sum of their charges if and only if it had not drained
      or what is stored with the sum exceeds the cap. */
  lemma InOrderExactly(s: State, ids: seq<nat>, max: real, mark: real)
    requires UnderWay(s, ids, max, mark) && |ids| >= 2 && s.value.value <= mark + max
    ensures var n := |ids|;
      Held(CorrectAll(IncrementAll(s, ids, n, max), ids, n, max).value, max, mark)
        == Clamp(Held(s.value, max, mark) + SumTo(s, ids, n), 0.0, max)
      <==> s.value.value >= mark || s.value.value + SumTo(s, ids, n) > mark + max
  {
    var n, x, total := |ids|, s.value.value, SumTo(s, ids, |ids|);
    var r := IncrementAll(s, ids, n, max);
    forall i | 0 <= i < n ensures ids[i] in r.calls && r.calls[ids[i]].Counted? {
      CallSees(s, ids, max, mark, i);
    }
    var last := LastCorrectionCounts(r, ids, n, max);
    FirstAndLast(s, ids, max, mark);
    if last == -1 {
      AfterIncrements(s, ids, n, max, mark, 0);
      NoCorrection(x, total, max, mark);
    } else {
      CallSees(s, ids, max, mark, last);
      SumsGrow(s, ids, max, mark, 0, last);
      SumsGrow(s, ids, max, mark, last + 1, n);
      OneOfSeveral(s, ids, max, mark, last);
      LastCorrectionDecides(x, SumTo(s, ids, last), ChargeOf(s, ids[last]), total, s.calls[ids[last]].visit, last == n - 1);
    }
  }

  lemma NoCorrection(x: real, total: real, max: real, mark: real)
    requires max > 0.0 && mark <= x && 0.0 < total && x + total <= mark + max
    ensures Held(Some(x + total), max, mark) == Clamp(Held(Some(x), max, mark) + total, 0.0, max)
  {}

  /** The first call corrects a drained bucket, the last one an overfull one. */
  lemma FirstAndLast(s: State, ids: seq<nat>, max: real, mark: real)
    requires UnderWay(s, ids, max, mark) && |ids| >= 2 && s.value.value <= mark + max
    ensures var n, r := |ids|, IncrementAll(s, ids, |ids|, max);
      && (s.value.value < mark ==> Fixes(r, ids[0]))
      && (s.value.value + SumTo(s, ids, n) > mark + max ==> Fixes(r, ids[n - 1]))
      && 0.0 < SumTo(s, ids, n)
  {
    var n := |ids|;
    CallSees(s, ids, max, mark, 0);
    CallSees(s, ids, max, mark, n - 1);
    SumsGrow(s, ids, max, mark, 0, n);
  }

  lemma OneOfSeveral(s: State, ids: seq<nat>, max: real, mark: real, i: nat)
    requires UnderWay(s, ids, max, mark) && |ids| >= 2 && i < |ids|
    ensures ChargeOf(s, ids[i]) < SumTo(s, ids, |ids|) && 0.0 < ChargeOf(s, ids[i]) < max
    ensures s.calls[ids[i]].visit.charge == Some(ChargeOf(s, ids[i]))
  {
    assert Small(s, ids[i], max);
    SumsGrow(s, ids, max, mark, 0, i);
    SumsGrow(s, ids, max, mark, i + 1, |ids|);
  }
}
