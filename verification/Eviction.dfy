/** What the overflow sweep can do to a bucket: it only forgets, and nothing goes missing unaccounted. */
module Eviction {
  import opened Wrappers
  import opened Tiers
  import opened Refs
  import opened Ledgers
  import opened History

  // ---------- one bucket that may be evicted after any call ----------

  /** The slot after the history when the sweep removed it after the events marked in `swept`. */
  function AfterSwept(h: Past, swept: seq<bool>, max: real): Option<real>
    requires |swept| == |h|
  {
    var n := |h| - 1;
    if h == [] || swept[n] then None
    else LocalSlot(AfterSwept(h[..n], swept[..n], max), h[n].At(max))
  }

  /** Charges go somewhere: they are held, leaked, spilled at the cap, or forgotten by the sweep. */
  datatype Account = Account(charged: real, leaked: real, spilled: real, forgotten: real)

  function Min(a: real, b: real): real { if a <= b then a else b }

  function Over(a: real): real { if a > 0.0 then a else 0.0 }

  /** The books up to `mark`; leaks are counted at the constant rate, down to empty. */
  function Books(h: Past, swept: seq<bool>, max: real, mark: real): Account
    requires |swept| == |h|
  {
    if h == [] then Account(0.0, 0.0, 0.0, 0.0)
    else
      var n := |h| - 1;
      var b := Books(h[..n], swept[..n], max, h[n].mark);
      var before := Held(AfterSwept(h[..n], swept[..n], max), max, h[n].mark);
      var after := Filled(before, max, h[n].charge);
      Account(b.charged + h[n].Amount(),
              b.leaked + (if swept[n] then 0.0 else Min(after, mark - h[n].mark)),
              b.spilled + Over(before + h[n].Amount() - max),
              b.forgotten + if swept[n] then after else 0.0)
  }

  lemma {:induction false} SweptIsBounded(h: Past, swept: seq<bool>, max: real, mark: real)
    requires max > 0.0 && |swept| == |h| && Reached(h, mark)
    ensures AfterSwept(h, swept, max).Some? ==> AfterSwept(h, swept, max).value <= mark + max
  {
    if h != [] {
      SweptIsBounded(h[..|h| - 1], swept[..|h| - 1], max, mark);
    }
  }

  /** What one event adds to the books is what it adds to the bucket. */
  lemma OneEventBalances(slot: Option<real>, e: Event, swept: bool, max: real, mark: real)
    requires max > 0.0 && e.Amount() >= 0.0 && e.mark <= mark
    requires slot.Some? ==> slot.value <= e.mark + max
    ensures var before := Held(slot, max, e.mark);
      var after := Filled(before, max, e.charge);
      && 0.0 <= before <= max && 0.0 <= after <= max
      && before + e.Amount() == after + Over(before + e.Amount() - max)
      && (!swept ==> Held(LocalSlot(slot, e.At(max)), max, mark) == after - Min(after, mark - e.mark))
  {
    var next := LocalSlot(slot, e.At(max));
    HeldDrains(next, max, e.mark, mark);
  }

  /** Conservation: charged = held + leaked + spilled + forgotten, and no account is negative. */
  lemma {:induction false} NothingGoesMissing(h: Past, swept: seq<bool>, max: real, mark: real)
    requires max > 0.0 && |swept| == |h| && NonNegative(h) && Reached(h, mark)
    ensures var b := Books(h, swept, max, mark);
      && b.charged == Held(AfterSwept(h, swept, max), max, mark) + b.leaked + b.spilled + b.forgotten
      && b.leaked >= 0.0 && b.spilled >= 0.0 && b.forgotten >= 0.0
  {
    if h != [] {
      var n := |h| - 1;
      NothingGoesMissing(h[..n], swept[..n], max, h[n].mark);
      SweptIsBounded(h[..n], swept[..n], max, h[n].mark);
      SweptIsBounded(h, swept, max, h[n].mark);
      OneEventBalances(AfterSwept(h[..n], swept[..n], max), h[n], swept[n], max, mark);
    }
  }

  lemma {:induction false} ChargedIsTotal(h: Past, swept: seq<bool>, max: real, mark: real)
    requires |swept| == |h|
    ensures Books(h, swept, max, mark).charged == Total(h, 0)
  {
    if h != [] {
      var n := |h| - 1;
      ChargedIsTotal(h[..n], swept[..n], max, h[n].mark);
      TotalAppend(h, 0);
    }
  }

  // ---------- the whole ledger ----------

  /** Every bucket of `small` is at most as full as in `large`, at the marks of the clock. */
  ghost predicate Below(tiers: map<string, Tier>, small: Slots, large: Slots, now: real) {
    forall ref :: Usable(tiers, ref) ==>
      BelowOn(Get(small, BucketKey(ref)), Get(large, BucketKey(ref)), TierOf(tiers, ref.kind).max,
              TierOf(tiers, ref.kind).Mark(now))
  }

  ghost predicate BelowOn(a: Option<real>, b: Option<real>, max: real, mark: real) {
    && (a.Some? ==> a.value <= mark + max)
    && (b.Some? ==> b.value <= mark + max)
    && Held(a, max, mark) <= Held(b, max, mark)
  }
}
