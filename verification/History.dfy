/** One bucket over a whole history of charges and readings. The history is given in marks, so that all
    statements are linear; `Mark` turns clock readings into marks. */
module History {
  import opened Wrappers
  import opened Tiers
  import opened Ledgers

  /** A call that touched the bucket: the mark of its clock and the summed charge, if it charged. */
  datatype Event = Event(mark: real, charge: Option<real>) {
    function Amount(): real { charge.GetOr(0.0) }

    function At(max: real): Visit { Visit("", max, mark, charge) }
  }

  type Past = seq<Event>

  /** The slot an in-memory ledger that never evicts holds after the history. */
  function After(h: Past, max: real): Option<real> {
    if h == [] then None
    else LocalSlot(After(h[..|h| - 1], max), h[|h| - 1].At(max))
  }

  lemma AfterAppend(h: Past, e: Event, max: real)
    ensures After(h + [e], max) == LocalSlot(After(h, max), e.At(max))
  {
    assert (h + [e])[..|h|] == h;
  }

  ghost predicate Ordered(h: Past) {
    forall i, j :: 0 <= i < j < |h| ==> h[i].mark <= h[j].mark
  }

  ghost predicate NonNegative(h: Past) {
    forall i :: 0 <= i < |h| ==> h[i].Amount() >= 0.0
  }

  ghost predicate Reached(h: Past, mark: real) {
    Ordered(h) && forall i :: 0 <= i < |h| ==> h[i].mark <= mark
  }

  lemma {:induction false} SlotIsBounded(h: Past, max: real, mark: real)
    requires max > 0.0 && Reached(h, mark)
    ensures After(h, max).Some? ==> After(h, max).value <= mark + max
  {
    if h != [] {
      SlotIsBounded(h[..|h| - 1], max, mark);
    }
  }

  /** The last event, then draining. */
  lemma LastStep(h: Past, max: real, mark: real)
    requires max > 0.0 && h != [] && Reached(h, mark)
    ensures var n := |h| - 1;
      Held(After(h, max), max, mark)
      == Clamp(Filled(Held(After(h[..n], max), max, h[n].mark), max, h[n].charge) - (mark - h[n].mark), 0.0, max)
  {
    var n := |h| - 1;
    SlotIsBounded(h[..n], max, h[n].mark);
    SlotIsBounded(h, max, h[n].mark);
    HeldDrains(After(h, max), max, h[n].mark, mark);
  }

  // ---------- the window bound ----------

  /** The total charge from event `j` on. */
  function Total(h: Past, j: nat): real
    requires j <= |h|
    decreases |h| - j
  {
    if j == |h| then 0.0 else h[j].Amount() + Total(h, j + 1)
  }

  /** What was charged since event `j`, less what a bucket leaks meanwhile. */
  function Excess(h: Past, j: nat, mark: real): real
    requires j < |h|
  {
    Total(h, j) - (mark - h[j].mark)
  }

  lemma {:induction false} TotalAppend(h: Past, j: nat)
    requires j < |h|
    ensures Total(h, j) == Total(h[..|h| - 1], j) + h[|h| - 1].Amount()
    decreases |h| - j
  {
    if j < |h| - 1 {
      TotalAppend(h, j + 1);
    }
  }

  /** A level is only ever reported because some window of the recent past exceeds the leak by as much. */
  lemma {:induction false} LevelHasWindow(h: Past, max: real, mark: real) returns (j: nat)
    requires max > 0.0 && NonNegative(h) && Reached(h, mark)
    requires Held(After(h, max), max, mark) > 0.0
    ensures j < |h| && h[j].charge.Some? && Excess(h, j, mark) >= Held(After(h, max), max, mark)
  {
    var n := |h| - 1;
    LastStep(h, max, mark);
    if Held(After(h[..n], max), max, h[n].mark) > 0.0 {
      j := LevelHasWindow(h[..n], max, h[n].mark);
      TotalAppend(h, j);
    } else {
      j := n;
      assert Total(h, n) == h[n].Amount() + Total(h, n + 1);
    }
  }

  /** A subject whose every window stays within `x` plus the leak never shows more than `x`. */
  lemma WithinBudgetStaysBelow(h: Past, max: real, mark: real, x: real)
    requires max > 0.0 && x >= 0.0 && NonNegative(h) && Reached(h, mark)
    requires forall j :: 0 <= j < |h| && h[j].charge.Some? ==> Total(h, j) <= x + (mark - h[j].mark)
    ensures Held(After(h, max), max, mark) <= x
  {
    if Held(After(h, max), max, mark) > 0.0 {
      var j := LevelHasWindow(h, max, mark);
    }
  }

  ghost predicate NeverCapped(h: Past, max: real) {
    forall n :: 0 <= n < |h| ==> Held(After(h[..n], max), max, h[n].mark) + h[n].Amount() <= max
  }

  /** While the cap never bites, no window is forgotten either. */
  lemma {:induction false} WindowReachesLevel(h: Past, max: real, mark: real, j: nat)
    requires max > 0.0 && NonNegative(h) && Reached(h, mark) && NeverCapped(h, max) && j < |h|
    ensures Held(After(h, max), max, mark) >= Excess(h, j, mark)
  {
    var n := |h| - 1;
    LastStep(h, max, mark);
    assert Held(After(h[..n], max), max, h[n].mark) + h[n].Amount() <= max;
    if j < n {
      assert forall k :: 0 <= k < n ==> h[..n][..k] == h[..k] && h[..n][k] == h[k];
      WindowReachesLevel(h[..n], max, h[n].mark, j);
      TotalAppend(h, j);
    } else {
      assert Total(h, n) == h[n].Amount() + Total(h, n + 1);
    }
  }

  /** Then the level is exactly the largest excess over all windows: it reaches `x` if and only if some
      window does. */
  lemma LevelIsLargestWindow(h: Past, max: real, mark: real, x: real)
    requires max > 0.0 && x > 0.0 && NonNegative(h) && Reached(h, mark) && NeverCapped(h, max)
    ensures Held(After(h, max), max, mark) >= x <==> exists j :: 0 <= j < |h| && Excess(h, j, mark) >= x
  {
    if Held(After(h, max), max, mark) >= x {
      var j := LevelHasWindow(h, max, mark);
    }
    forall j | 0 <= j < |h| && Excess(h, j, mark) >= x ensures Held(After(h, max), max, mark) >= x {
      WindowReachesLevel(h, max, mark, j);
    }
  }

  // ---------- several charges at one instant ----------

  lemma TwoChargesAreOne(slot: Option<real>, max: real, mark: real, a: real, b: real)
    requires max > 0.0 && a >= 0.0 && b >= 0.0
    ensures LocalSlot(LocalSlot(slot, Event(mark, Some(a)).At(max)), Event(mark, Some(b)).At(max))
         == LocalSlot(slot, Event(mark, Some(a + b)).At(max))
  {}

  /** Non-negative charges made one after the other at one instant fill the bucket like their sum. */
  lemma {:induction false} SplitCharges(h: Past, max: real, mark: real, parts: seq<real>)
    requires max > 0.0 && parts != [] && forall i :: 0 <= i < |parts| ==> parts[i] >= 0.0
    ensures After(h + Burst(mark, parts), max) == After(h + [Event(mark, Some(SumAll(parts)))], max)
  {
    var n := |parts| - 1;
    var last := Event(mark, Some(parts[n]));
    assert h + Burst(mark, parts) == (h + Burst(mark, parts[..n])) + [last];
    if n == 0 {
      assert parts[..0] == [] && h + Burst(mark, parts[..0]) == h;
    } else {
      var sum := SumAll(parts[..n]);
      SplitCharges(h, max, mark, parts[..n]);
      SumAllNonNegative(parts[..n]);
      AfterAppend(h + Burst(mark, parts[..n]), last, max);
      AfterAppend(h, Event(mark, Some(sum)), max);
      AfterAppend(h, Event(mark, Some(sum + parts[n])), max);
      TwoChargesAreOne(After(h, max), max, mark, sum, parts[n]);
    }
  }

  function Burst(mark: real, parts: seq<real>): Past {
    seq(|parts|, i requires 0 <= i < |parts| => Event(mark, Some(parts[i])))
  }

  function SumAll(parts: seq<real>): real {
    if parts == [] then 0.0 else SumAll(parts[..|parts| - 1]) + parts[|parts| - 1]
  }

  lemma {:induction false} SumAllNonNegative(parts: seq<real>)
    requires forall i :: 0 <= i < |parts| ==> parts[i] >= 0.0
    ensures SumAll(parts) >= 0.0
  {
    if parts != [] {
      SumAllNonNegative(parts[..|parts| - 1]);
    }
  }
}
