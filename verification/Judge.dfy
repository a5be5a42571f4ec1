/** From bucket levels to a verdict: the rules are tried in order and each one that fires is taken into
    the decision. */
module Judge {
  import opened Wrappers

  datatype Verdict = Allow | Score | Deny

  /** `score` matters only for a rule that does not deny. */
  datatype Rule = Rule(counter: string, axis: string, at: real, denies: bool, score: int, code: string)

  datatype Would = Would(verdict: Verdict, score: int, code: string)

  datatype Decision = Decision(verdict: Verdict, score: int, code: string, denyResponse: string, would: Option<Would>)

  /** A level as a rule finds it: the percent and the subject's key, or none if the subject has no key. */
  datatype Reading = Reading(percent: real, key: string)

  type Lookup = (string, string) -> Option<Reading>

  datatype Row = Row(rule: Rule, reading: Option<Reading>, fired: bool, code: string)

  const CODE_LEVEL := "COUNTER_LEVEL"
  const CODE_OBSERVE := "COUNTER_OBSERVE"

  function CodeOf(r: Rule): string {
    if r.code == "" then CODE_LEVEL else r.code
  }

  predicate Fires(r: Rule, lookup: Lookup) {
    var reading := lookup(r.counter, r.axis);
    reading.Some? && reading.value.percent >= r.at
  }

  function FiredRules(rules: seq<Rule>, lookup: Lookup): seq<Rule> {
    if rules == [] then []
    else
      var n := |rules| - 1;
      FiredRules(rules[..n], lookup) + if Fires(rules[n], lookup) then [rules[n]] else []
  }

  // ---------- what the decision is ----------

  ghost predicate LastDenier(fired: seq<Rule>, i: int) {
    0 <= i < |fired| && fired[i].denies && forall j :: i < j < |fired| ==> !fired[j].denies
  }

  ghost predicate FirstHighest(fired: seq<Rule>, i: int) {
    && 0 <= i < |fired|
    && (forall j :: 0 <= j < |fired| ==> fired[j].score <= fired[i].score)
    && (forall j :: 0 <= j < i ==> fired[j].score < fired[i].score)
  }

  predicate AnyDenies(fired: seq<Rule>) {
    exists i :: 0 <= i < |fired| && fired[i].denies
  }

  /** Deny as soon as one fired rule denies, with the last such rule's code; otherwise the highest score, with
      the code of the first rule that reaches it; allow when nothing fired. */
  ghost predicate Decides(d: Decision, fired: seq<Rule>, denyResponse: string) {
    d.would == None &&
    if AnyDenies(fired) then
      && d.verdict == Deny && d.score == 0 && d.denyResponse == denyResponse
      && exists i :: LastDenier(fired, i) && d.code == CodeOf(fired[i])
    else if fired != [] then
      && d.verdict == Score && d.denyResponse == ""
      && exists i :: FirstHighest(fired, i) && d.score == fired[i].score && d.code == CodeOf(fired[i])
    else d == Decision(Allow, 0, "", "", None)
  }

  function RowOf(r: Rule, lookup: Lookup): Row {
    Row(r, lookup(r.counter, r.axis), Fires(r, lookup), CodeOf(r))
  }

  // ---------- how the code finds it ----------

  method Take(d: Decision, r: Rule, ghost fired: seq<Rule>, denyResponse: string) returns (d': Decision)
    requires Decides(d, fired, denyResponse)
    ensures Decides(d', fired + [r], denyResponse)
  {
    ghost var longer := fired + [r];
    var code := CodeOf(r);
    if r.denies {
      d' := d.(verdict := Deny, score := 0, code := code, denyResponse := denyResponse);
      assert longer[|fired|].denies;
      assert LastDenier(longer, |fired|);
      return;
    }
    if d.verdict == Deny {
      d' := d;
      ghost var i :| LastDenier(fired, i) && d.code == CodeOf(fired[i]);
      assert longer[i].denies;
      assert LastDenier(longer, i);
      return;
    }
    assert !AnyDenies(longer) by {
      assert forall j :: 0 <= j < |fired| ==> longer[j] == fired[j];
    }
    if d.verdict != Score || r.score > d.score {
      d' := d.(verdict := Score, score := r.score, code := code);
      assert FirstHighest(longer, |fired|);
    } else {
      d' := d;
      ghost var i :| FirstHighest(fired, i) && d.score == fired[i].score && d.code == CodeOf(fired[i]);
      assert FirstHighest(longer, i);
    }
  }

  lemma FiredStep(rules: seq<Rule>, lookup: Lookup, i: nat)
    requires i < |rules|
    ensures FiredRules(rules[..i + 1], lookup)
      == if Fires(rules[i], lookup) then FiredRules(rules[..i], lookup) + [rules[i]] else FiredRules(rules[..i], lookup)
  {
    assert rules[..i + 1][..i] == rules[..i];
  }

  ghost predicate Audited(audit: seq<Row>, rules: seq<Rule>, lookup: Lookup, n: nat) {
    |audit| == n <= |rules| && forall i :: 0 <= i < n ==> audit[i] == RowOf(rules[i], lookup)
  }

  /** The loop over the rules. */
  method Enforce(rules: seq<Rule>, denyResponse: string, lookup: Lookup) returns (d: Decision, audit: seq<Row>)
    ensures Decides(d, FiredRules(rules, lookup), denyResponse)
    ensures Audited(audit, rules, lookup, |rules|)
  {
    d, audit := Decision(Allow, 0, "", "", None), [];
    ghost var fired: seq<Rule> := [];
    for i := 0 to |rules|
      invariant fired == FiredRules(rules[..i], lookup) && Decides(d, fired, denyResponse)
      invariant Audited(audit, rules, lookup, i)
    {
      FiredStep(rules, lookup, i);
      var row := Look(rules[i], lookup);
      AuditMore(audit, rules, lookup, i);
      audit := audit + [row];
      if row.fired {
        d := Take(d, rules[i], fired, denyResponse);
        fired := fired + [rules[i]];
      }
    }
    assert rules[..|rules|] == rules;
  }

  lemma AuditMore(audit: seq<Row>, rules: seq<Rule>, lookup: Lookup, n: nat)
    requires Audited(audit, rules, lookup, n) && n < |rules|
    ensures Audited(audit + [RowOf(rules[n], lookup)], rules, lookup, n + 1)
  {}

  /** What the audit says of one rule: no subject, below the threshold, or fired. */
  method Look(r: Rule, lookup: Lookup) returns (row: Row)
    ensures row == RowOf(r, lookup)
  {
    var reading := lookup(r.counter, r.axis);
    row := Row(r, reading, false, CodeOf(r));
    if reading.None? || reading.value.percent < r.at {
      return;
    }
    row := row.(fired := true);
  }

  /** Enforcing, the answer is what the fired rules decide; observing, everything passes and what would have
      been decided is kept aside. The audit has one row per rule. */
  method Decide(rules: seq<Rule>, denyResponse: string, observe: bool, lookup: Lookup)
    returns (d: Decision, audit: seq<Row>, ghost enforced: Decision)
    ensures Decides(enforced, FiredRules(rules, lookup), denyResponse)
    ensures !observe ==> d == enforced && Decides(d, FiredRules(rules, lookup), denyResponse)
    ensures observe ==> d.verdict == Allow && d.score == 0 && d.denyResponse == ""
    ensures observe && enforced.verdict != Allow ==>
              && d.code == "COUNTER_OBSERVE"
              && d.would == Some(Would(enforced.verdict, enforced.score, enforced.code))
    ensures observe && enforced.verdict == Allow ==> d.code == "" && d.would == None
    ensures |audit| == |rules|
    ensures forall i :: 0 <= i < |rules| ==>
              && audit[i].rule == rules[i] && audit[i].reading == lookup(rules[i].counter, rules[i].axis)
              && (audit[i].fired <==> audit[i].reading.Some? && audit[i].reading.value.percent >= rules[i].at)
              && audit[i].code == if rules[i].code == "" then "COUNTER_LEVEL" else rules[i].code
  {
    d, audit := Decision(Allow, 0, "", "", None), [];
    enforced := d;
    if |rules| == 0 {
      return;
    }
    d, audit := Enforce(rules, denyResponse, lookup);
    enforced := d;
    if observe && d.verdict != Allow {
      d := Decision(Allow, 0, CODE_OBSERVE, "", Some(Would(d.verdict, d.score, d.code)));
    }
  }

  // ---------- the decision is determined ----------

  /** The fired rules determine the whole decision. */
  lemma DecisionIsUnique(a: Decision, b: Decision, fired: seq<Rule>, denyResponse: string)
    requires Decides(a, fired, denyResponse) && Decides(b, fired, denyResponse)
    ensures a == b
  {
    if AnyDenies(fired) {
      var i :| LastDenier(fired, i) && a.code == CodeOf(fired[i]);
      var j :| LastDenier(fired, j) && b.code == CodeOf(fired[j]);
      assert i == j;
    } else if fired != [] {
      var i :| FirstHighest(fired, i) && a.score == fired[i].score && a.code == CodeOf(fired[i]);
      var j :| FirstHighest(fired, j) && b.score == fired[j].score && b.code == CodeOf(fired[j]);
      assert i == j;
    }
  }

  /** A rule has fired as often as it is listed if its subject's level has reached the threshold, exactly at the
      threshold included, and never if there is no subject or the level is below. */
  lemma {:induction false} FiredCount(rules: seq<Rule>, lookup: Lookup, r: Rule)
    ensures multiset(FiredRules(rules, lookup))[r]
         == match lookup(r.counter, r.axis)
            case None => 0
            case Some(reading) => if reading.percent >= r.at then multiset(rules)[r] else 0
  {
    if rules != [] {
      var n := |rules| - 1;
      FiredCount(rules[..n], lookup, r);
      assert rules == rules[..n] + [rules[n]];
    }
  }

  lemma FiredMembers(rules: seq<Rule>, lookup: Lookup, r: Rule)
    ensures r in FiredRules(rules, lookup) <==>
            && r in rules && lookup(r.counter, r.axis).Some? && lookup(r.counter, r.axis).value.percent >= r.at
  {
    FiredCount(rules, lookup, r);
    assert r in FiredRules(rules, lookup) <==> multiset(FiredRules(rules, lookup))[r] > 0;
    assert r in rules <==> multiset(rules)[r] > 0;
  }

  lemma {:induction false} FiredConcat(a: seq<Rule>, b: seq<Rule>, lookup: Lookup)
    ensures FiredRules(a + b, lookup) == FiredRules(a, lookup) + FiredRules(b, lookup)
  {
    if b == [] {
      assert a + b == a;
    } else {
      var n := |b| - 1;
      FiredConcat(a, b[..n], lookup);
      assert (a + b)[..|a| + n] == a + b[..n] && (a + b)[|a| + n] == b[n];
      var last := if Fires(b[n], lookup) then [b[n]] else [];
      var (p, q) := (FiredRules(a, lookup), FiredRules(b[..n], lookup));
      assert FiredRules(a + b, lookup) == (p + q) + last == p + (q + last);
    }
  }

  /** A fired rule stands where the fired ones before it end. */
  lemma FiredAround(rules: seq<Rule>, lookup: Lookup, i: nat)
    requires i < |rules| && Fires(rules[i], lookup)
    ensures FiredRules(rules, lookup)
         == FiredRules(rules[..i], lookup) + [rules[i]] + FiredRules(rules[i + 1..], lookup)
  {
    assert rules == rules[..i + 1] + rules[i + 1..];
    FiredConcat(rules[..i + 1], rules[i + 1..], lookup);
    FiredStep(rules, lookup, i);
  }

  /** The level the rule looks at has reached its threshold. */
  predicate Reached(rules: seq<Rule>, lookup: Lookup, i: int) {
    && 0 <= i < |rules| && lookup(rules[i].counter, rules[i].axis).Some?
    && lookup(rules[i].counter, rules[i].axis).value.percent >= rules[i].at
  }

  /** The last rule in the list that denies and is reached gives the code of the denial. */
  lemma LastDenierDecides(rules: seq<Rule>, lookup: Lookup, denyResponse: string, d: Decision, i: int)
    requires Decides(d, FiredRules(rules, lookup), denyResponse)
    requires Reached(rules, lookup, i) && rules[i].denies
    requires forall j :: i < j && Reached(rules, lookup, j) ==> !rules[j].denies
    ensures d == Decision(Deny, 0, if rules[i].code == "" then "COUNTER_LEVEL" else rules[i].code, denyResponse, None)
  {
    var fired, k := FiredRules(rules, lookup), |FiredRules(rules[..i], lookup)|;
    FiredAround(rules, lookup, i);
    forall j | k < j < |fired| ensures !fired[j].denies {
      var r := FiredRules(rules[i + 1..], lookup)[j - k - 1];
      FiredMembers(rules[i + 1..], lookup, r);
      var m :| 0 <= m < |rules[i + 1..]| && rules[i + 1..][m] == r;
      assert Reached(rules, lookup, i + 1 + m);
    }
    assert fired[k] == rules[i];
    assert LastDenier(fired, k);
    var i' :| LastDenier(fired, i') && d.code == CodeOf(fired[i']);
    assert i' == k;
  }

  /** With no denial, the first rule among the reached ones with the highest score gives score and code. */
  lemma FirstHighestDecides(rules: seq<Rule>, lookup: Lookup, denyResponse: string, d: Decision, i: int)
    requires Decides(d, FiredRules(rules, lookup), denyResponse)
    requires Reached(rules, lookup, i)
    requires forall j :: Reached(rules, lookup, j) ==> !rules[j].denies && rules[j].score <= rules[i].score
    requires forall j :: Reached(rules, lookup, j) && j < i ==> rules[j].score < rules[i].score
    ensures d == Decision(Score, rules[i].score, if rules[i].code == "" then "COUNTER_LEVEL" else rules[i].code, "", None)
  {
    var fired, k := FiredRules(rules, lookup), |FiredRules(rules[..i], lookup)|;
    FiredAround(rules, lookup, i);
    assert fired[k] == rules[i];
    forall j | 0 <= j < |fired| ensures !fired[j].denies && fired[j].score <= rules[i].score {
      FiredMembers(rules, lookup, fired[j]);
      var m :| 0 <= m < |rules| && rules[m] == fired[j];
      assert Reached(rules, lookup, m);
    }
    forall j | 0 <= j < k ensures fired[j].score < rules[i].score {
      FiredMembers(rules[..i], lookup, fired[j]);
      var m :| 0 <= m < i && rules[m] == fired[j];
      assert Reached(rules, lookup, m);
    }
    assert FirstHighest(fired, k);
    var i' :| FirstHighest(fired, i') && d.score == fired[i'].score && d.code == CodeOf(fired[i']);
    assert i' == k;
  }

  /** With no rule reached, allow. */
  lemma NothingReachedAllows(rules: seq<Rule>, lookup: Lookup, denyResponse: string, d: Decision)
    requires Decides(d, FiredRules(rules, lookup), denyResponse)
    requires forall j :: !Reached(rules, lookup, j)
    ensures d == Decision(Allow, 0, "", "", None)
  {
    var counts := multiset(FiredRules(rules, lookup));
    forall r ensures counts[r] == 0 {
      FiredCount(rules, lookup, r);
      if r in rules {
        var m :| 0 <= m < |rules| && rules[m] == r;
        assert !Reached(rules, lookup, m);
      }
    }
    assert counts == multiset{};
    assert |FiredRules(rules, lookup)| == |counts|;
  }

  /** The verdict and the score do not depend on the order of the rules, nor on repetitions; only the code may. */
  lemma OrderIsIrrelevant(rules: seq<Rule>, rules': seq<Rule>, lookup: Lookup, denyResponse: string, a: Decision,
                          b: Decision)
    requires forall r :: r in rules <==> r in rules'
    requires Decides(a, FiredRules(rules, lookup), denyResponse) && Decides(b, FiredRules(rules', lookup), denyResponse)
    ensures a.verdict == b.verdict && a.score == b.score && a.denyResponse == b.denyResponse
  {
    var f, g := FiredRules(rules, lookup), FiredRules(rules', lookup);
    forall r ensures r in f <==> r in g {
      FiredMembers(rules, lookup, r);
      FiredMembers(rules', lookup, r);
    }
    SameRulesSofter(f, g, denyResponse, a, b);
    SameRulesSofter(g, f, denyResponse, b, a);
  }

  /** Allow, then scores by value, then deny. */
  predicate Softer(v: Verdict, score: int, w: Verdict, score': int) {
    match (v, w)
    case (Allow, _) => true
    case (Score, Score) => score <= score'
    case (Score, Deny) => true
    case (Deny, Deny) => true
    case _ => false
  }

  lemma TakenIsBound(fired: seq<Rule>, denyResponse: string, d: Decision, r: Rule)
    requires Decides(d, fired, denyResponse) && r in fired
    ensures d.verdict != Allow
    ensures r.denies ==> d.verdict == Deny
    ensures d.verdict == Score ==> r.score <= d.score
  {
    var k :| 0 <= k < |fired| && fired[k] == r;
    assert r.denies ==> AnyDenies(fired);
  }

  lemma TakenIsFired(fired: seq<Rule>, denyResponse: string, d: Decision) returns (r: Rule)
    requires Decides(d, fired, denyResponse) && d.verdict != Allow
    ensures r in fired
    ensures d.verdict == Deny ==> r.denies
    ensures d.verdict == Score ==> r.score == d.score
  {
    if d.verdict == Deny {
      var i :| LastDenier(fired, i) && d.code == CodeOf(fired[i]);
      r := fired[i];
    } else {
      var i :| FirstHighest(fired, i) && d.score == fired[i].score && d.code == CodeOf(fired[i]);
      r := fired[i];
    }
  }

  /** More fired rules never soften the decision. */
  lemma SameRulesSofter(f: seq<Rule>, g: seq<Rule>, denyResponse: string, a: Decision, b: Decision)
    requires forall r :: r in f ==> r in g
    requires Decides(a, f, denyResponse) && Decides(b, g, denyResponse)
    ensures Softer(a.verdict, a.score, b.verdict, b.score)
  {
    if a.verdict != Allow {
      var r := TakenIsFired(f, denyResponse, a);
      TakenIsBound(g, denyResponse, b, r);
    }
  }

  // ---------- higher levels, harder decisions ----------

  /** The same subjects, every level at least as high. */
  ghost predicate Higher(rules: seq<Rule>, low: Lookup, high: Lookup) {
    forall r :: r in rules ==>
      match low(r.counter, r.axis)
      case None => true
      case Some(reading) => high(r.counter, r.axis).Some? && reading.percent <= high(r.counter, r.axis).value.percent
  }

  /** Higher levels never lead to a softer decision, in the order allow, scores by value, deny. */
  lemma HigherIsHarder(rules: seq<Rule>, low: Lookup, high: Lookup, denyResponse: string, a: Decision, b: Decision)
    requires Higher(rules, low, high)
    requires Decides(a, FiredRules(rules, low), denyResponse) && Decides(b, FiredRules(rules, high), denyResponse)
    ensures a.verdict == Deny ==> b.verdict == Deny
    ensures b.verdict == Allow ==> a.verdict == Allow
    ensures a.verdict == Score && b.verdict == Score ==> a.score <= b.score
  {
    forall r | r in FiredRules(rules, low) ensures r in FiredRules(rules, high) {
      FiredMembers(rules, low, r);
      FiredMembers(rules, high, r);
    }
    SameRulesSofter(FiredRules(rules, low), FiredRules(rules, high), denyResponse, a, b);
  }

  /** What validation demands of a rule. */
  predicate ValidRule(r: Rule) {
    0.0 <= r.at <= 100.0 && if r.denies then r.score == 0 else 1 <= r.score <= 100
  }

  lemma ValidScores(rules: seq<Rule>, lookup: Lookup, denyResponse: string, d: Decision)
    requires forall r :: r in rules ==> ValidRule(r)
    requires Decides(d, FiredRules(rules, lookup), denyResponse)
    ensures if d.verdict == Score then 1 <= d.score <= 100 else d.score == 0
  {
    var fired := FiredRules(rules, lookup);
    if !AnyDenies(fired) && fired != [] {
      var i :| FirstHighest(fired, i) && d.score == fired[i].score;
      FiredMembers(rules, lookup, fired[i]);
    }
  }

  // ---------- scaling by what the neighbours say ----------

  /** To the nearest whole number, halves away from zero. */
  function Round(x: real): int {
    if x >= 0.0 then (x + 0.5).Floor else -((-x + 0.5).Floor)
  }

  function Exact(score: int, percent: int): real {
    score as real * (1.0 + percent as real / 100.0)
  }

  function Capped(x: real): int {
    var whole := Round(x);
    if whole < 0 then 0 else if whole > 100 then 100 else whole
  }

  function ScaleScore(score: int, percent: int): int {
    if percent == 0 || score <= 0 then (if score > 0 then score else 0)
    else Capped(Exact(score, percent))
  }

  predicate InRange(score: int) {
    0 <= score <= 100
  }

  /** The scaled score fits the reply exactly unless an unscaled score above 100 is passed through. */
  lemma ScaledFits(score: int, percent: int)
    ensures 0 <= ScaleScore(score, percent) <= 100 <==> !(percent == 0 && score > 100)
  {}

  lemma CappedMonotone(x: real, y: real)
    requires x <= y
    ensures Capped(x) <= Capped(y)
  {}

  lemma CappedIsNearest(x: real)
    ensures 0.0 <= x <= 100.0 ==> -0.5 <= x - Capped(x) as real < 0.5
    ensures x >= 100.0 ==> Capped(x) == 100
    ensures x <= 0.0 ==> Capped(x) == 0
  {}

  lemma CappedKeepsWhole(n: int)
    requires InRange(n)
    ensures Capped(n as real) == n
  {}

  lemma ExactOrder(score: int, score': int, percent: int)
    requires 0 <= score <= score'
    ensures percent >= -100 ==> 0.0 <= Exact(score, percent) <= Exact(score', percent)
    ensures percent <= -100 ==> Exact(score', percent) <= 0.0
  {
    var f := 1.0 + percent as real / 100.0;
    if percent >= -100 {
      assert f >= 0.0;
      ProductOrder(0.0, score as real, f);
      ProductOrder(score as real, score' as real, f);
    } else {
      assert f <= 0.0;
      ProductOrder(0.0, score' as real, f);
    }
  }

  lemma ProductOrder(x: real, y: real, f: real)
    requires x <= y
    ensures f >= 0.0 ==> x * f <= y * f
    ensures f <= 0.0 ==> x * f >= y * f
  {
    assert f >= 0.0 ==> (y - x) * f >= 0.0;
    assert f <= 0.0 ==> (y - x) * f <= 0.0;
    assert y * f - x * f == (y - x) * f;
  }

  lemma ExactGrows(score: int, percent: int, percent': int)
    requires 0 <= score && percent <= percent'
    ensures Exact(score, percent) <= Exact(score, percent')
    ensures Exact(score, 0) == score as real
  {
    var f, f' := 1.0 + percent as real / 100.0, 1.0 + percent' as real / 100.0;
    ProductOrder(f, f', score as real);
  }

  /** The nearest whole number to the score raised or lowered by the percent, halves away from zero, between 0 and
      100; the shortcut for no percent passes any score through. */
  lemma ScaledIsNearest(score: int, percent: int)
    ensures score <= 0 ==> ScaleScore(score, percent) == 0
    ensures score > 0 && percent == 0 ==> ScaleScore(score, percent) == score
    ensures score > 0 && percent != 0 ==>
              var exact := score as real * (1.0 + percent as real / 100.0);
              && (exact <= 0.0 ==> ScaleScore(score, percent) == 0)
              && (exact >= 100.0 ==> ScaleScore(score, percent) == 100)
              && (0.0 <= exact <= 100.0 ==> -0.5 <= exact - ScaleScore(score, percent) as real < 0.5)
  {
    CappedIsNearest(Exact(score, percent));
  }

  /** The same percent keeps the order of scores. */
  lemma ScaleKeepsOrder(score: int, score': int, percent: int)
    requires score <= score'
    ensures ScaleScore(score, percent) <= ScaleScore(score', percent)
  {
    if percent != 0 && score > 0 {
      ExactOrder(score, score', percent);
      ExactOrder(score, score, percent);
      if percent >= -100 {
        CappedMonotone(Exact(score, percent), Exact(score', percent));
      } else {
        CappedIsNearest(Exact(score, percent));
      }
    }
  }

  /** A higher percent never lowers a score that fits. */
  lemma ScaleGrowsWithPercent(score: int, percent: int, percent': int)
    requires InRange(score) && percent <= percent'
    ensures ScaleScore(score, percent) <= ScaleScore(score, percent')
  {
    ScaleIsCapped(score, percent);
    ScaleIsCapped(score, percent');
    ExactGrows(score, percent, percent');
    CappedMonotone(Exact(score, percent), Exact(score, percent'));
  }

  /** For a score that fits the shortcuts change nothing. */
  lemma ScaleIsCapped(score: int, percent: int)
    requires InRange(score)
    ensures ScaleScore(score, percent) == Capped(Exact(score, percent))
  {
    if percent == 0 || score == 0 {
      assert Exact(score, percent) == score as real;
      CappedKeepsWhole(score);
    }
  }

  /** What the reply carries: with valid rules, a score that fits. */
  lemma ValidScoreFits(rules: seq<Rule>, lookup: Lookup, denyResponse: string, percent: int, d: Decision)
    requires forall r :: r in rules ==> 0.0 <= r.at <= 100.0 && if r.denies then r.score == 0 else 1 <= r.score <= 100
    requires Decides(d, FiredRules(rules, lookup), denyResponse)
    ensures 0 <= ScaleScore(d.score, percent) <= 100
  {
    ValidScores(rules, lookup, denyResponse, d);
    ScaledFits(d.score, percent);
  }
}
