/** Which buckets one call touches, and by how much: the live charges, their sums per bucket, and the
    sorted union of charged and read buckets. */
module Refs {
  import opened Wrappers
  import opened Tiers

  // ---------- the order the buckets are visited in ----------

  predicate LexLess(a: string, b: string) {
    b != "" && (a == "" || a[0] < b[0] || (a[0] == b[0] && LexLess(a[1..], b[1..])))
  }

  predicate Before(a: Ref, b: Ref) {
    if a.kind != b.kind then LexLess(a.kind, b.kind) else LexLess(a.key, b.key)
  }

  lemma {:induction false} LexTotal(a: string, b: string)
    ensures a == b || LexLess(a, b) || LexLess(b, a)
    ensures !(LexLess(a, b) && LexLess(b, a))
    ensures !LexLess(a, a)
  {
    if a != "" && b != "" {
      LexTotal(a[1..], b[1..]);
      assert a == [a[0]] + a[1..] && b == [b[0]] + b[1..];
    }
    if a != "" {
      LexTotal(a[1..], a[1..]);
    }
  }

  lemma {:induction false} LexTransitive(a: string, b: string, c: string)
    requires LexLess(a, b) && LexLess(b, c)
    ensures LexLess(a, c)
  {
    if a != "" && a[0] == b[0] == c[0] {
      LexTransitive(a[1..], b[1..], c[1..]);
    }
  }

  /** Strings are compared at the first place where they differ; one that ends before comes first. */
  lemma {:induction false} LexIsDictionary(a: string, b: string)
    ensures LexLess(a, b) <==> exists k | 0 <= k < |b| && k <= |a| :: a[..k] == b[..k] && (k == |a| || a[k] < b[k])
  {
    if a != "" && b != "" && a[0] == b[0] {
      LexIsDictionary(a[1..], b[1..]);
      if LexLess(a, b) {
        var k :| 0 <= k < |b[1..]| && k <= |a[1..]| && a[1..][..k] == b[1..][..k] && (k == |a[1..]| || a[1..][k] < b[1..][k]);
        assert a[..k + 1] == [a[0]] + a[1..][..k] && b[..k + 1] == [b[0]] + b[1..][..k];
      }
      if k :| 0 <= k < |b| && k <= |a| && a[..k] == b[..k] && (k == |a| || a[k] < b[k]) {
        assert k > 0;
        assert a[1..][..k - 1] == a[..k][1..] && b[1..][..k - 1] == b[..k][1..];
      }
    } else if b != "" && (a == "" || a[0] < b[0]) {
      assert a[..0] == b[..0];
    } else if a != "" && b != "" {
      forall k | 0 < k <= |a| && k < |b| ensures a[..k] != b[..k] {
        assert a[..k][0] == a[0] && b[..k][0] == b[0];
      }
    }
  }

  /** The comparison handed to the sort is a strict total order on references. */
  lemma BeforeIsStrictOrder(a: Ref, b: Ref, c: Ref)
    ensures a == b || Before(a, b) || Before(b, a)
    ensures !(Before(a, b) && Before(b, a)) && !Before(a, a)
    ensures Before(a, b) && Before(b, c) ==> Before(a, c)
    ensures Before(a, b) <==> LexLess(a.kind, b.kind) || (a.kind == b.kind && LexLess(a.key, b.key))
  {
    LexTotal(a.kind, b.kind);
    LexTotal(a.key, b.key);
    LexTotal(a.key, a.key);
    if Before(a, b) && Before(b, c) {
      if a.kind != b.kind && b.kind != c.kind {
        LexTransitive(a.kind, b.kind, c.kind);
        LexTotal(a.kind, c.kind);
      } else if a.kind == b.kind == c.kind {
        LexTransitive(a.key, b.key, c.key);
      }
    }
  }

  ghost predicate Ascending(refs: seq<Ref>) {
    forall i, j :: 0 <= i < j < |refs| ==> Before(refs[i], refs[j])
  }

  ghost predicate Distinct<T(!new)>(s: seq<T>) {
    forall i, j :: 0 <= i < j < |s| ==> s[i] != s[j]
  }

  // ---------- the union of charged and read buckets ----------

  predicate Usable(tiers: map<string, Tier>, ref: Ref) {
    TierOf(tiers, ref.kind).Enabled() && ref.key != ""
  }

  function RefsIn(charges: seq<Charge>): set<Ref> {
    set c | c in charges :: c.ref
  }

  /** The buckets a call answers for. */
  function Wanted(tiers: map<string, Tier>, charges: seq<Charge>, queries: seq<Ref>): set<Ref> {
    set r | r in RefsIn(charges) + (set q | q in queries) && Usable(tiers, r)
  }

  ghost predicate IsUnion(refs: seq<Ref>, wanted: set<Ref>) {
    Ascending(refs) && forall r :: r in refs <==> r in wanted
  }

  method RefUnion(charges: seq<Charge>, queries: seq<Ref>, tiers: map<string, Tier>) returns (refs: seq<Ref>)
    ensures IsUnion(refs, Wanted(tiers, charges, queries))
  {
    var seen: set<Ref> := {};
    refs := [];
    for i := 0 to |charges|
      invariant Distinct(refs) && forall r :: r in refs <==> r in seen
      invariant seen == Wanted(tiers, charges[..i], [])
    {
      assert charges[..i + 1] == charges[..i] + [charges[i]];
      assert RefsIn(charges[..i + 1]) == RefsIn(charges[..i]) + {charges[i].ref};
      refs, seen := AddRef(refs, seen, tiers, charges[i].ref);
    }
    assert charges[..|charges|] == charges;
    for i := 0 to |queries|
      invariant Distinct(refs) && forall r :: r in refs <==> r in seen
      invariant seen == Wanted(tiers, charges, queries[..i])
    {
      assert queries[..i + 1] == queries[..i] + [queries[i]];
      refs, seen := AddRef(refs, seen, tiers, queries[i]);
    }
    assert queries[..|queries|] == queries;
    refs := Sort(refs);
  }

  method AddRef(refs: seq<Ref>, seen: set<Ref>, tiers: map<string, Tier>, r: Ref)
    returns (refs': seq<Ref>, seen': set<Ref>)
    requires Distinct(refs) && forall q :: q in refs <==> q in seen
    ensures Distinct(refs') && forall q :: q in refs' <==> q in seen'
    ensures seen' == if Usable(tiers, r) then seen + {r} else seen
  {
    if !Usable(tiers, r) || r in seen {
      return refs, seen;
    }
    return refs + [r], seen + {r};
  }

  /** Stands for the library sort the code calls. */
  method Sort(refs: seq<Ref>) returns (sorted: seq<Ref>)
    requires Distinct(refs)
    ensures Ascending(sorted) && forall r :: r in sorted <==> r in refs
  {
    sorted := [];
    for i := 0 to |refs|
      invariant Ascending(sorted) && forall r :: r in sorted <==> r in refs[..i]
    {
      assert refs[i] !in refs[..i];
      sorted := Insert(sorted, refs[i]);
    }
  }

  method Insert(sorted: seq<Ref>, r: Ref) returns (longer: seq<Ref>)
    requires Ascending(sorted) && r !in sorted
    ensures Ascending(longer) && forall q :: q in longer <==> q == r || q in sorted
  {
    var n := |sorted|;
    while n > 0 && Before(r, sorted[n - 1])
      invariant 0 <= n <= |sorted|
      invariant forall k :: n <= k < |sorted| ==> Before(r, sorted[k])
    {
      n := n - 1;
    }
    forall k | 0 <= k < n ensures Before(sorted[k], r) {
      BeforeIsStrictOrder(sorted[n - 1], r, r);
      BeforeIsStrictOrder(sorted[k], sorted[n - 1], r);
    }
    longer := sorted[..n] + [r] + sorted[n..];
    assert sorted == sorted[..n] + sorted[n..];
  }

  /** The answer does not depend on the order or the multiplicity of what was asked. */
  lemma {:induction false} UnionIsUnique(a: seq<Ref>, b: seq<Ref>, wanted: set<Ref>)
    requires IsUnion(a, wanted) && IsUnion(b, wanted)
    ensures a == b
    decreases |a|
  {
    SameEmptiness(a, b);
    if a != [] {
      var n, m := |a| - 1, |b| - 1;
      SameLast(a, b);
      assert a == a[..n] + [a[n]] && b == b[..m] + [b[m]];
      AscendingIsDistinct(a);
      AscendingIsDistinct(b);
      UnionIsUnique(a[..n], b[..m], wanted - {a[n]});
    }
  }

  lemma SameEmptiness<T>(a: seq<T>, b: seq<T>)
    requires forall x :: x in a <==> x in b
    ensures a == [] <==> b == []
  {
    if a != [] {
      assert a[0] in b;
    }
    if b != [] {
      assert b[0] in a;
    }
  }

  lemma SameLast(a: seq<Ref>, b: seq<Ref>)
    requires Ascending(a) && Ascending(b) && a != [] && b != []
    requires forall r :: r in a <==> r in b
    ensures a[|a| - 1] == b[|b| - 1]
  {
    var x, y := a[|a| - 1], b[|b| - 1];
    assert y in a && x in b;
    BeforeIsStrictOrder(x, y, x);
  }

  lemma AscendingIsDistinct(refs: seq<Ref>)
    requires Ascending(refs)
    ensures Distinct(refs)
  {
    forall i, j | 0 <= i < j < |refs| ensures refs[i] != refs[j] {
      BeforeIsStrictOrder(refs[i], refs[i], refs[i]);
    }
  }

  // ---------- the sums per bucket ----------

  function SumOf(charges: seq<Charge>, ref: Ref): real {
    if charges == [] then 0.0
    else
      var n := |charges| - 1;
      SumOf(charges[..n], ref) + (if charges[n].ref == ref then charges[n].add else 0.0)
  }

  function ChargeOn(charges: seq<Charge>, ref: Ref): Option<real> {
    if ref in RefsIn(charges) then Some(SumOf(charges, ref)) else None
  }

  /** One charge more adds its amount to its own bucket's sum and to no other. */
  lemma SumOfAppend(charges: seq<Charge>, on: Ref, add: real, ref: Ref)
    ensures SumOf(charges + [Charge(on, add)], ref) == SumOf(charges, ref) + if on == ref then add else 0.0
    ensures SumOf([], ref) == 0.0
  {
    assert (charges + [Charge(on, add)])[..|charges|] == charges;
  }

  method Sum(charges: seq<Charge>) returns (sums: map<Ref, real>)
    ensures forall ref :: Get(sums, ref) == ChargeOn(charges, ref)
  {
    sums := map[];
    for i := 0 to |charges|
      invariant forall ref :: Get(sums, ref) == ChargeOn(charges[..i], ref)
    {
      var c := charges[i];
      assert charges[..i + 1] == charges[..i] + [c];
      forall ref ensures ChargeOn(charges[..i + 1], ref)
        == if ref == c.ref then Some(ChargeOn(charges[..i], ref).GetOr(0.0) + c.add)
           else ChargeOn(charges[..i], ref)
      {
        ChargeOnAppend(charges[..i], c, ref);
      }
      var before := Get(sums, c.ref).GetOr(0.0);
      ghost var old_sums := sums;
      sums := sums[c.ref := before + c.add];
      forall ref ensures Get(sums, ref) == ChargeOn(charges[..i + 1], ref) {
        assert Get(old_sums, ref) == ChargeOn(charges[..i], ref);
      }
    }
    assert charges[..|charges|] == charges;
  }

  lemma {:induction false} SumOfOthers(charges: seq<Charge>, ref: Ref)
    requires ref !in RefsIn(charges)
    ensures SumOf(charges, ref) == 0.0
  {
    if charges != [] {
      var n := |charges| - 1;
      assert charges[n] in charges;
      assert forall c :: c in charges[..n] ==> c in charges;
      SumOfOthers(charges[..n], ref);
    }
  }

  lemma ChargeOnAppend(charges: seq<Charge>, c: Charge, ref: Ref)
    ensures ChargeOn(charges + [c], ref)
      == if ref == c.ref then Some(ChargeOn(charges, ref).GetOr(0.0) + c.add) else ChargeOn(charges, ref)
  {
    assert (charges + [c])[..|charges|] == charges;
    assert RefsIn(charges + [c]) == RefsIn(charges) + {c.ref};
    if ref !in RefsIn(charges) {
      SumOfOthers(charges, ref);
    }
  }

  lemma {:induction false} SumOfConcat(a: seq<Charge>, b: seq<Charge>, ref: Ref)
    ensures SumOf(a + b, ref) == SumOf(a, ref) + SumOf(b, ref)
  {
    if b == [] {
      assert a + b == a;
    } else {
      var n := |b| - 1;
      assert (a + b)[..|a| + n] == a + b[..n];
      SumOfConcat(a, b[..n], ref);
    }
  }

  /** Only the multiset of charges matters. */
  lemma {:induction false} ChargeOnPermutation(a: seq<Charge>, b: seq<Charge>, ref: Ref)
    requires multiset(a) == multiset(b)
    ensures ChargeOn(a, ref) == ChargeOn(b, ref)
  {
    assert forall c :: c in a <==> c in multiset(a);
    assert forall c :: c in b <==> c in multiset(b);
    assert RefsIn(a) == RefsIn(b);
    SumOfPermutation(a, b, ref);
  }

  lemma {:induction false} SumOfPermutation(a: seq<Charge>, b: seq<Charge>, ref: Ref)
    requires multiset(a) == multiset(b)
    ensures SumOf(a, ref) == SumOf(b, ref)
    decreases |a|
  {
    if a == [] {
      assert |multiset(b)| == 0;
    } else {
      var n := |a| - 1;
      var c := a[n];
      assert c in multiset(b);
      var k :| 0 <= k < |b| && b[k] == c;
      assert a == a[..n] + [c];
      assert b == b[..k] + ([c] + b[k + 1..]);
      assert multiset(a) == multiset(a[..n]) + multiset{c};
      assert multiset(b) == multiset(b[..k]) + multiset{c} + multiset(b[k + 1..]);
      assert multiset(b[..k] + b[k + 1..]) == multiset(b[..k]) + multiset(b[k + 1..]);
      assert multiset(a[..n]) == multiset(a) - multiset{c};
      assert multiset(b[..k]) + multiset(b[k + 1..]) == multiset(b) - multiset{c};
      SumOfPermutation(a[..n], b[..k] + b[k + 1..], ref);
      SumOfConcat(b[..k], b[k + 1..], ref);
      SumOfConcat(b[..k], [c] + b[k + 1..], ref);
      SumOfConcat([c], b[k + 1..], ref);
      SumOfConcat(a[..n], [c], ref);
    }
  }

  // ---------- the live charges ----------

  predicate IsLive(tiers: map<string, Tier>, c: Charge) {
    TierOf(tiers, c.ref.kind).Enabled() && c.add != 0.0
  }

  function LiveOf(tiers: map<string, Tier>, charges: seq<Charge>): seq<Charge> {
    if charges == [] then []
    else
      var n := |charges| - 1;
      LiveOf(tiers, charges[..n]) + if IsLive(tiers, charges[n]) then [charges[n]] else []
  }

  /** Dropping zero charges and charges on disabled tiers changes no sum on a usable bucket. */
  lemma {:induction false} LiveKeepsSums(tiers: map<string, Tier>, charges: seq<Charge>, ref: Ref)
    ensures SumOf(LiveOf(tiers, charges), ref)
         == if TierOf(tiers, ref.kind).Enabled() then SumOf(charges, ref) else 0.0
  {
    if charges != [] {
      var n := |charges| - 1;
      LiveKeepsSums(tiers, charges[..n], ref);
      var tail := if IsLive(tiers, charges[n]) then [charges[n]] else [];
      SumOfConcat(LiveOf(tiers, charges[..n]), tail, ref);
      assert |tail| == 1 ==> tail[..0] == [];
    }
  }

  lemma {:induction false} LiveMembers(tiers: map<string, Tier>, charges: seq<Charge>, c: Charge)
    ensures c in LiveOf(tiers, charges) <==> c in charges && IsLive(tiers, c)
  {
    if charges != [] {
      var n := |charges| - 1;
      LiveMembers(tiers, charges[..n], c);
      assert charges == charges[..n] + [charges[n]];
    }
  }

  lemma {:induction false} LivePermutation(tiers: map<string, Tier>, a: seq<Charge>, b: seq<Charge>)
    requires multiset(a) == multiset(b)
    ensures multiset(LiveOf(tiers, a)) == multiset(LiveOf(tiers, b))
  {
    forall c ensures multiset(LiveOf(tiers, a))[c] == multiset(LiveOf(tiers, b))[c] {
      LiveCount(tiers, a, c);
      LiveCount(tiers, b, c);
    }
  }

  lemma {:induction false} LiveCount(tiers: map<string, Tier>, charges: seq<Charge>, c: Charge)
    ensures multiset(LiveOf(tiers, charges))[c] == if IsLive(tiers, c) then multiset(charges)[c] else 0
  {
    if charges != [] {
      var n := |charges| - 1;
      LiveCount(tiers, charges[..n], c);
      assert charges == charges[..n] + [charges[n]];
    }
  }
}
