/** The arithmetic of one leaky bucket. A bucket is stored as one number, `level + rate * time`; the
    product `rate * time` is called the mark of the bucket at that time. Times are seconds since the
    epoch of the code; amounts are exact reals. */
module Tiers {
  import opened Wrappers

  datatype Tier = Tier(max: real, loss: real) {
    predicate Enabled() { max > 0.0 && loss > 0.0 }

    function Rate(): real { loss / 100.0 * max }

    /** The time to live the code gives a bucket's key, in seconds. */
    function Lifetime(): real {
      if Enabled() then 100.0 / loss else 0.0
    }

    function Mark(time: real): real { Rate() * time }
  }

  datatype Ref = Ref(kind: string, key: string)

  datatype Charge = Charge(ref: Ref, add: real)

  datatype Level = Level(ref: Ref, score: real, percent: real)

  function Clamp(v: real, lo: real, hi: real): real {
    if v < lo then lo else if v > hi then hi else v
  }

  /** A kind nobody declared has the zero tier, which is disabled. */
  function TierOf(tiers: map<string, Tier>, kind: string): Tier {
    if kind in tiers then tiers[kind] else Tier(0.0, 0.0)
  }

  function BucketKey(ref: Ref): string {
    "cnt:bkt:" + ref.kind + ":" + ref.key
  }

  function LevelOf(ref: Ref, max: real, effective: real): Level {
    Level(ref, effective, if max > 0.0 then effective / max * 100.0 else 0.0)
  }

  /** The fill a stored number stands for at a mark; an absent key is an empty bucket. */
  function Held(slot: Option<real>, max: real, mark: real): real {
    match slot
    case None => 0.0
    case Some(v) => Clamp(v - mark, 0.0, max)
  }

  /** The fill after an optional charge. */
  function Filled(held: real, max: real, charge: Option<real>): real {
    match charge
    case None => held
    case Some(d) => Clamp(held + d, 0.0, max)
  }

  /** Marks move with the clock, and a key lives exactly as long as a full bucket takes to drain. */
  lemma MarkMoves(tier: Tier, t1: real, t2: real)
    requires tier.Enabled()
    ensures t1 <= t2 ==> tier.Mark(t1) <= tier.Mark(t2)
    ensures t1 < t2 ==> tier.Mark(t1) < tier.Mark(t2)
    ensures tier.Mark(t2) - tier.Mark(t1) == tier.Rate() * (t2 - t1)
    ensures tier.Mark(t1 + tier.Lifetime()) == tier.Mark(t1) + tier.max
  {
    var l, m, r := tier.loss, tier.max, tier.Rate();
    assert r > 0.0 by { assert l / 100.0 > 0.0; }
    ProductMonotone(r, t1, t2);
    LifetimeTimesRate(l, m);
    assert r * (t1 + 100.0 / l) == r * t1 + r * (100.0 / l);
  }

  lemma LifetimeTimesRate(l: real, m: real)
    requires l > 0.0
    ensures (l / 100.0 * m) * (100.0 / l) == m
  {
    assert (l / 100.0 * m) * (100.0 / l) == m * ((l / 100.0) * (100.0 / l));
    assert (l / 100.0) * (100.0 / l) == 1.0;
  }

  lemma ProductMonotone(r: real, t1: real, t2: real)
    requires r > 0.0
    ensures t1 <= t2 ==> r * t1 <= r * t2
    ensures t1 < t2 ==> r * t1 < r * t2
    ensures r * (t2 - t1) == r * t2 - r * t1
  {
    assert t1 <= t2 ==> r * (t2 - t1) >= 0.0;
    assert t1 < t2 ==> r * (t2 - t1) > 0.0;
  }

  /** Leaking needs no bookkeeping: between two marks a bucket loses their difference, down to empty. */
  lemma HeldDrains(slot: Option<real>, max: real, mark1: real, mark2: real)
    requires max > 0.0 && mark1 <= mark2
    requires slot.Some? ==> slot.value <= mark1 + max
    ensures Held(slot, max, mark2) == Clamp(Held(slot, max, mark1) - (mark2 - mark1), 0.0, max)
  {}
}
