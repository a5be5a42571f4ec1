/** What earlier inspectors asked of this one: to skip, to scale its score, to charge notes. */
module Prior {
  import opened Refs
  import opened Counters

  const SKIP := "skip"
  const THRESHOLD := "threshold"
  const NOTE := "note"
  const REQUEST := "request"
  const RESPONSE := "response"
  const PERCENT_MIN := -100
  const PERCENT_MAX := 900

  datatype Action = Action(do: string, apply: string, code: string, delta: int, value: int, counter: string) {
    function Scope(): string {
      if apply == "" then REQUEST else apply
    }
  }

  datatype Entry = Entry(inspector: string, phase: string, actions: seq<Action>)

  datatype PriorRule = PriorRule(from: string, accept: seq<string>, apply: seq<string>, codes: seq<string>, counter: string)

  datatype NoteCharge = NoteCharge(counter: string, axis: string, percent: int, code: string, from: string)

  datatype Result = Applied | NoRule | NoCounter

  /** What became of one action: how much of it was taken, and the reason if nothing was. */
  datatype Outcome = Outcome(from: string, action: Action, took: int, result: Result)

  datatype Ask = Ask(skip: bool, percent: int, notes: seq<NoteCharge>, outcomes: seq<Outcome>)

  /** An action together with the inspector it comes from. */
  datatype Delivery = Delivery(from: string, act: Action)

  predicate ChargeHere(recorded: string, phase: string, requestEnabled: bool) {
    var at := if recorded == "" then REQUEST else recorded;
    at == phase || (phase == RESPONSE && at == REQUEST && !requestEnabled)
  }

  // ---------- what counts ----------

  predicate Due(e: Entry, act: Action, phase: string, requestEnabled: bool) {
    act.do == NOTE ==> ChargeHere(e.phase, phase, requestEnabled)
  }

  function DueOf(e: Entry, acts: seq<Action>, phase: string, requestEnabled: bool): seq<Delivery> {
    if acts == [] then []
    else
      var n := |acts| - 1;
      DueOf(e, acts[..n], phase, requestEnabled)
      + if Due(e, acts[n], phase, requestEnabled) then [Delivery(e.inspector, acts[n])] else []
  }

  /** The actions delivered in a phase, in order. */
  function Deliveries(entries: seq<Entry>, phase: string, requestEnabled: bool): seq<Delivery> {
    if entries == [] then []
    else
      var n := |entries| - 1;
      Deliveries(entries[..n], phase, requestEnabled) + DueOf(entries[n], entries[n].actions, phase, requestEnabled)
  }

  predicate Wants(r: PriorRule, d: Delivery) {
    && r.from == d.from
    && d.act.do in r.accept
    && (r.apply == [] || d.act.Scope() in r.apply)
    && (r.codes == [] || d.act.code in r.codes)
    && (d.act.do == NOTE && d.act.counter != "" ==> d.act.counter == r.counter)
  }

  /** What one rule takes of one action: nothing if it does not want it. */
  function Taken(r: PriorRule, d: Delivery, c: Config): int {
    if !Wants(r, d) then 0
    else if d.act.do == THRESHOLD then d.act.delta
    else if d.act.do == NOTE && NoteAxesOf(c, r.counter, d.act.Scope()) != [] then d.act.value
    else 0
  }

  predicate Resolves(r: PriorRule, d: Delivery, c: Config) {
    && Wants(r, d)
    && (d.act.do in [SKIP, THRESHOLD]
        || (d.act.do == NOTE && (d.act.value == 0 || NoteAxesOf(c, r.counter, d.act.Scope()) != [])))
  }

  function NotesFor(counter: string, axes: seq<string>, d: Delivery): seq<NoteCharge> {
    seq(|axes|, i requires 0 <= i < |axes| => NoteCharge(counter, axes[i], d.act.value, d.act.code, d.from))
  }

  function NotesOf(r: PriorRule, d: Delivery, c: Config): seq<NoteCharge> {
    if Wants(r, d) && d.act.do == NOTE && d.act.value != 0
    then NotesFor(r.counter, NoteAxesOf(c, r.counter, d.act.Scope()), d)
    else []
  }

  function TakenBy(rules: seq<PriorRule>, d: Delivery, c: Config): int {
    if rules == [] then 0
    else
      var n := |rules| - 1; TakenBy(rules[..n], d, c) + Taken(rules[n], d, c)
  }

  function NotesBy(rules: seq<PriorRule>, d: Delivery, c: Config): seq<NoteCharge> {
    if rules == [] then []
    else
      var n := |rules| - 1; NotesBy(rules[..n], d, c) + NotesOf(rules[n], d, c)
  }

  predicate AnyResolves(rules: seq<PriorRule>, d: Delivery, c: Config) {
    exists i :: 0 <= i < |rules| && Resolves(rules[i], d, c)
  }

  predicate AnyWantsNote(rules: seq<PriorRule>, d: Delivery) {
    d.act.do == NOTE && exists i :: 0 <= i < |rules| && Wants(rules[i], d)
  }

  predicate AnySkips(rules: seq<PriorRule>, d: Delivery) {
    d.act.do == SKIP && exists i :: 0 <= i < |rules| && Wants(rules[i], d)
  }

  function OutcomeOf(rules: seq<PriorRule>, d: Delivery, c: Config): Outcome {
    Outcome(d.from, d.act, TakenBy(rules, d, c),
            if AnyResolves(rules, d, c) then Applied else if AnyWantsNote(rules, d) then NoCounter else NoRule)
  }

  /** The answer to a list of deliveries, before the percent is clamped. */
  function AskOf(ds: seq<Delivery>, rules: seq<PriorRule>, c: Config): Ask {
    if ds == [] then Ask(false, 0, [], [])
    else
      var n := |ds| - 1;
      After(AskOf(ds[..n], rules, c), ds[n], rules, c)
  }

  function After(a: Ask, d: Delivery, rules: seq<PriorRule>, c: Config): Ask {
    Ask(a.skip || AnySkips(rules, d),
        a.percent + (if d.act.do == THRESHOLD then TakenBy(rules, d, c) else 0),
        a.notes + NotesBy(rules, d, c),
        a.outcomes + [OutcomeOf(rules, d, c)])
  }

  // ---------- the loops ----------

  method EvaluatePrior(entries: seq<Entry>, rules: seq<PriorRule>, c: Config, phase: string, requestEnabled: bool)
    returns (a: Ask)
    ensures var raw := AskOf(Deliveries(entries, phase, requestEnabled), rules, c);
      && a.skip == raw.skip && a.notes == raw.notes && a.outcomes == raw.outcomes
      && a.percent == if raw.percent < -100 then -100 else if raw.percent > 900 then 900 else raw.percent
  {
    a := Ask(false, 0, [], []);
    ghost var ds: seq<Delivery> := [];
    for i := 0 to |entries|
      invariant ds == Deliveries(entries[..i], phase, requestEnabled) && a == AskOf(ds, rules, c)
    {
      assert entries[..i + 1][..i] == entries[..i];
      a := DeliverAll(a, ds, entries[i], rules, c, phase, requestEnabled);
      ds := ds + DueOf(entries[i], entries[i].actions, phase, requestEnabled);
    }
    assert entries[..|entries|] == entries;
    if a.percent < PERCENT_MIN {
      a := a.(percent := PERCENT_MIN);
    }
    if a.percent > PERCENT_MAX {
      a := a.(percent := PERCENT_MAX);
    }
  }

  /** The inner loop, over one entry's actions. */
  method DeliverAll(a: Ask, ghost ds: seq<Delivery>, e: Entry, rules: seq<PriorRule>, c: Config, phase: string,
                    requestEnabled: bool)
    returns (b: Ask)
    requires a == AskOf(ds, rules, c)
    ensures b == AskOf(ds + DueOf(e, e.actions, phase, requestEnabled), rules, c)
  {
    b := a;
    ghost var due: seq<Delivery> := [];
    assert ds + [] == ds;
    for k := 0 to |e.actions|
      invariant due == DueOf(e, e.actions[..k], phase, requestEnabled)
      invariant b == AskOf(ds + due, rules, c)
    {
      var act := e.actions[k];
      DueStep(e, k, phase, requestEnabled);
      if act.do == NOTE && !ChargeHere(e.phase, phase, requestEnabled) {
        continue;
      }
      b := Deliver(b, Delivery(e.inspector, act), rules, c);
      AskMore(ds, due, Delivery(e.inspector, act), rules, c);
      due := due + [Delivery(e.inspector, act)];
    }
    assert e.actions[..|e.actions|] == e.actions;
  }

  lemma DueStep(e: Entry, k: nat, phase: string, requestEnabled: bool)
    requires k < |e.actions|
    ensures var due := DueOf(e, e.actions[..k], phase, requestEnabled);
      DueOf(e, e.actions[..k + 1], phase, requestEnabled)
      == if Due(e, e.actions[k], phase, requestEnabled) then due + [Delivery(e.inspector, e.actions[k])] else due
  {
    assert e.actions[..k + 1][..k] == e.actions[..k];
  }

  lemma AskMore(ds: seq<Delivery>, due: seq<Delivery>, d: Delivery, rules: seq<PriorRule>, c: Config)
    ensures AskOf(ds + (due + [d]), rules, c) == After(AskOf(ds + due, rules, c), d, rules, c)
  {
    assert ds + (due + [d]) == (ds + due) + [d];
    AskAppend(ds + due, d, rules, c);
  }

  lemma AskAppend(ds: seq<Delivery>, d: Delivery, rules: seq<PriorRule>, c: Config)
    ensures AskOf(ds + [d], rules, c) == After(AskOf(ds, rules, c), d, rules, c)
  {
    assert (ds + [d])[..|ds|] == ds;
  }

  /** What the first rules make of one delivery, `out.took` and `out.result` included. */
  ghost predicate Partly(a: Ask, b: Ask, out: Outcome, rules: seq<PriorRule>, d: Delivery, c: Config) {
    && b.outcomes == a.outcomes
    && b.skip == (a.skip || AnySkips(rules, d))
    && b.percent == a.percent + (if d.act.do == THRESHOLD then TakenBy(rules, d, c) else 0)
    && b.notes == a.notes + NotesBy(rules, d, c)
    && out == OutcomeOf(rules, d, c)
  }

  method Deliver(a: Ask, d: Delivery, rules: seq<PriorRule>, c: Config) returns (b: Ask)
    ensures b == After(a, d, rules, c)
  {
    b := a;
    var out := Outcome(d.from, d.act, 0, NoRule);
    assert a.notes + [] == a.notes;
    for i := 0 to |rules|
      invariant Partly(a, b, out, rules[..i], d, c)
    {
      assert rules[..i + 1] == rules[..i] + [rules[i]];
      ghost var (b0, out0) := (b, out);
      b, out := Offer(b, out, rules[i], d, c);
      OfferedPartly(a, b0, out0, b, out, rules[..i], rules[i], d, c);
    }
    assert rules[..|rules|] == rules;
    b := b.(outcomes := b.outcomes + [out]);
  }

  /** One rule's turn: `b` and `out` after the ones before it. */
  ghost predicate Offered(b: Ask, out: Outcome, b': Ask, out': Outcome, r: PriorRule, d: Delivery, c: Config) {
    && b'.outcomes == b.outcomes
    && b'.skip == (b.skip || (Wants(r, d) && d.act.do == SKIP))
    && b'.percent == b.percent + (if d.act.do == THRESHOLD then Taken(r, d, c) else 0)
    && b'.notes == b.notes + NotesOf(r, d, c)
    && out' == out.(took := out.took + Taken(r, d, c),
                    result := if Resolves(r, d, c) then Applied
                              else if Wants(r, d) && d.act.do == NOTE && out.result == NoRule then NoCounter
                              else out.result)
  }

  method Offer(b: Ask, out: Outcome, r: PriorRule, d: Delivery, c: Config) returns (b': Ask, out': Outcome)
    ensures Offered(b, out, b', out', r, d, c)
  {
    b', out' := b, out;
    assert b.notes + [] == b.notes;
    if r.from != d.from {
      return;
    }
    var act := d.act;
    if act.do !in r.accept || !(r.apply == [] || act.Scope() in r.apply) || !(r.codes == [] || act.code in r.codes) {
      return;
    }
    if act.do == NOTE && act.counter != "" && act.counter != r.counter {
      return;
    }
    if act.do == SKIP {
      b' := b.(skip := true);
      out' := out.(result := Applied);
    } else if act.do == THRESHOLD {
      b' := b.(percent := b.percent + act.delta);
      out' := out.(took := out.took + act.delta, result := Applied);
    } else if act.do == NOTE {
      b', out' := Note(b, out, r, d, c);
    }
  }

  method Note(b: Ask, out: Outcome, r: PriorRule, d: Delivery, c: Config) returns (b': Ask, out': Outcome)
    requires Wants(r, d) && d.act.do == NOTE
    ensures Offered(b, out, b', out', r, d, c)
  {
    b', out' := b, out;
    assert b.notes + [] == b.notes;
    if d.act.value == 0 {
      out' := out.(result := Applied);
      return;
    }
    var axes := NoteAxes(c, r.counter, d.act.Scope());
    if |axes| == 0 {
      if out.result == NoRule {
        out' := out.(result := NoCounter);
      }
      return;
    }
    out' := out.(took := out.took + d.act.value, result := Applied);
    b' := AddNotes(b, r.counter, axes, d);
  }

  method AddNotes(b: Ask, counter: string, axes: seq<string>, d: Delivery) returns (b': Ask)
    ensures b' == b.(notes := b.notes + NotesFor(counter, axes, d))
  {
    b' := b;
    assert b.notes + [] == b.notes;
    for i := 0 to |axes|
      invariant b' == b.(notes := b.notes + NotesFor(counter, axes[..i], d))
    {
      ghost var done := NotesFor(counter, axes[..i], d);
      var note := NoteCharge(counter, axes[i], d.act.value, d.act.code, d.from);
      assert NotesFor(counter, axes[..i + 1], d) == done + [note];
      Associative(b.notes, done, [note]);
      b' := b'.(notes := b'.notes + [note]);
    }
    assert axes[..|axes|] == axes;
  }

  /** One more rule, in the words `AskOf` uses for all of them. */
  lemma OneMoreRule(rules: seq<PriorRule>, r: PriorRule, d: Delivery, c: Config)
    ensures TakenBy(rules + [r], d, c) == TakenBy(rules, d, c) + Taken(r, d, c)
    ensures NotesBy(rules + [r], d, c) == NotesBy(rules, d, c) + NotesOf(r, d, c)
    ensures AnyResolves(rules + [r], d, c) <==> AnyResolves(rules, d, c) || Resolves(r, d, c)
    ensures AnyWantsNote(rules + [r], d) <==> AnyWantsNote(rules, d) || (Wants(r, d) && d.act.do == NOTE)
    ensures AnySkips(rules + [r], d) <==> AnySkips(rules, d) || (Wants(r, d) && d.act.do == SKIP)
  {
    var longer := rules + [r];
    assert longer[..|rules|] == rules && longer[|rules|] == r;
    assert forall i :: 0 <= i < |rules| ==> longer[i] == rules[i];
  }

  lemma OfferedPartly(a: Ask, b: Ask, out: Outcome, b': Ask, out': Outcome, rules: seq<PriorRule>, r: PriorRule,
                      d: Delivery, c: Config)
    requires Partly(a, b, out, rules, d, c) && Offered(b, out, b', out', r, d, c)
    ensures Partly(a, b', out', rules + [r], d, c)
  {
    OneMoreRule(rules, r, d, c);
    Associative(a.notes, NotesBy(rules, d, c), NotesOf(r, d, c));
    assert out'.result == OutcomeOf(rules + [r], d, c).result;
  }

  lemma Associative<T>(x: seq<T>, y: seq<T>, z: seq<T>)
    ensures (x + y) + z == x + (y + z)
  {}

  // ---------- what follows ----------

  /** The sum over the deliveries of what the rules take of each. */
  function TotalTaken(ds: seq<Delivery>, rules: seq<PriorRule>, c: Config, do: string): int {
    if ds == [] then 0
    else
      var n := |ds| - 1;
      TotalTaken(ds[..n], rules, c, do) + if ds[n].act.do == do then TakenBy(rules, ds[n], c) else 0
  }

  function Accounted(outcomes: seq<Outcome>, do: string): int {
    if outcomes == [] then 0
    else
      var n := |outcomes| - 1; Accounted(outcomes[..n], do) + if outcomes[n].action.do == do then outcomes[n].took else 0
  }

  lemma AccountedAppend(outcomes: seq<Outcome>, o: Outcome, do: string)
    ensures Accounted(outcomes + [o], do) == Accounted(outcomes, do) + if o.action.do == do then o.took else 0
  {
    assert (outcomes + [o])[..|outcomes|] == outcomes;
  }

  /** The percent is what the outcomes report as taken from thresholds, up to the bounds: each accepted delta
      is counted once and reported once. */
  lemma {:induction false} OutcomesAccountForPercent(ds: seq<Delivery>, rules: seq<PriorRule>, c: Config)
    ensures AskOf(ds, rules, c).percent == Accounted(AskOf(ds, rules, c).outcomes, THRESHOLD)
    ensures AskOf(ds, rules, c).percent == TotalTaken(ds, rules, c, THRESHOLD)
  {
    if ds != [] {
      var n := |ds| - 1;
      OutcomesAccountForPercent(ds[..n], rules, c);
      AccountedAppend(AskOf(ds[..n], rules, c).outcomes, OutcomeOf(rules, ds[n], c), THRESHOLD);
    }
  }

  // ---------- what one more delivery, or one more entry, changes ----------

  /** An action more in the last entry is one delivery more, unless it is a note that belongs to another phase: the
      one it was recorded in, or the response for a note of the request while the request phase is off. */
  lemma OneMoreAction(entries: seq<Entry>, e: Entry, act: Action, phase: string, requestEnabled: bool)
    ensures var recorded := if e.phase == "" then "request" else e.phase;
      Deliveries(entries + [e.(actions := e.actions + [act])], phase, requestEnabled)
      == if act.do != "note" || recorded == phase || (recorded == "request" && phase == "response" && !requestEnabled)
         then Deliveries(entries + [e], phase, requestEnabled) + [Delivery(e.inspector, act)]
         else Deliveries(entries + [e], phase, requestEnabled)
    ensures Deliveries([], phase, requestEnabled) == []
    ensures Deliveries(entries + [e.(actions := [])], phase, requestEnabled) == Deliveries(entries, phase, requestEnabled)
  {
    var e' := e.(actions := e.actions + [act]);
    assert (entries + [e])[..|entries|] == (entries + [e'])[..|entries|] == entries;
    assert (entries + [e.(actions := [])])[..|entries|] == entries;
    DueStep(e', |e.actions|, phase, requestEnabled);
    assert e'.actions[..|e.actions|] == e.actions && e'.actions[..|e.actions| + 1] == e'.actions;
    DueOfSameEntry(e, e', e.actions, phase, requestEnabled);
    Associative(Deliveries(entries, phase, requestEnabled), DueOf(e, e.actions, phase, requestEnabled),
                [Delivery(e.inspector, act)]);
  }

  lemma {:induction false} DueOfSameEntry(e: Entry, e': Entry, acts: seq<Action>, phase: string, requestEnabled: bool)
    requires e.inspector == e'.inspector && e.phase == e'.phase
    ensures DueOf(e, acts, phase, requestEnabled) == DueOf(e', acts, phase, requestEnabled)
  {
    if acts != [] {
      DueOfSameEntry(e, e', acts[..|acts| - 1], phase, requestEnabled);
    }
  }

  /** A threshold moves the percent by its delta for every rule that accepts it: one that names the sender, accepts
      thresholds, and restricts neither the scope, which is the request if none is given, nor the code to others. */
  lemma ThresholdMovesPercent(ds: seq<Delivery>, d: Delivery, rules: seq<PriorRule>, c: Config)
    requires d.act.do == "threshold"
    ensures AskOf(ds + [d], rules, c).percent == AskOf(ds, rules, c).percent
              + d.act.delta * |set i | 0 <= i < |rules| && rules[i].from == d.from && "threshold" in rules[i].accept
                                       && (rules[i].apply == []
                                           || (if d.act.apply == "" then "request" else d.act.apply) in rules[i].apply)
                                       && (rules[i].codes == [] || d.act.code in rules[i].codes)|
  {
    AskAppend(ds, d, rules, c);
    ThresholdTaken(d, rules, c);
  }

  lemma ThresholdTaken(d: Delivery, rules: seq<PriorRule>, c: Config)
    requires d.act.do == THRESHOLD
    ensures TakenBy(rules, d, c)
         == d.act.delta * |set i | 0 <= i < |rules| && rules[i].from == d.from && THRESHOLD in rules[i].accept
                                  && (rules[i].apply == []
                                      || (if d.act.apply == "" then REQUEST else d.act.apply) in rules[i].apply)
                                  && (rules[i].codes == [] || d.act.code in rules[i].codes)|
  {
    var places := set i | 0 <= i < |rules| && rules[i].from == d.from && THRESHOLD in rules[i].accept
                          && (rules[i].apply == []
                              || (if d.act.apply == "" then REQUEST else d.act.apply) in rules[i].apply)
                          && (rules[i].codes == [] || d.act.code in rules[i].codes);
    TakenByMatching(rules, d, c, places);
  }

  /** Only thresholds move the percent, and only a skip that some rule accepts makes the answer one. */
  lemma OthersLeavePercent(ds: seq<Delivery>, d: Delivery, rules: seq<PriorRule>, c: Config)
    ensures d.act.do != "threshold" ==> AskOf(ds + [d], rules, c).percent == AskOf(ds, rules, c).percent
    ensures AskOf([], rules, c) == Ask(false, 0, [], [])
    ensures AskOf(ds + [d], rules, c).skip
        <==> || AskOf(ds, rules, c).skip
             || (d.act.do == "skip"
                 && exists i ::
                      && 0 <= i < |rules| && rules[i].from == d.from && "skip" in rules[i].accept
                      && (rules[i].apply == []
                          || (if d.act.apply == "" then "request" else d.act.apply) in rules[i].apply)
                      && (rules[i].codes == [] || d.act.code in rules[i].codes))
  {
    AskAppend(ds, d, rules, c);
    if d.act.do == SKIP {
      assert SKIP != THRESHOLD && SKIP != NOTE;
      assert AnySkips(rules, d) <==> exists i :: 0 <= i < |rules| && Wants(rules[i], d);
    }
  }

  /** A note adds its value to every axis that it reaches and the counter has, for every rule that charges the counter
      and accepts the note; a note that names a counter is for that counter alone. */
  lemma NoteMovesAxis(ds: seq<Delivery>, d: Delivery, rules: seq<PriorRule>, c: Config, counter: string, axis: string)
    requires d.act.do == "note" && c.HasAxis(counter, axis)
    requires || (d.act.apply == "ip" && axis == "ip")
             || (d.act.apply == "asn" && (axis == "asn_net" || axis == "asn_router"))
             || (d.act.apply == "session" && axis == "sess")
    ensures Noted(AskOf(ds + [d], rules, c).notes, counter, axis) == Noted(AskOf(ds, rules, c).notes, counter, axis)
              + d.act.value * |set i | 0 <= i < |rules| && rules[i].from == d.from && "note" in rules[i].accept
                                       && (rules[i].apply == [] || d.act.apply in rules[i].apply)
                                       && (rules[i].codes == [] || d.act.code in rules[i].codes)
                                       && rules[i].counter == counter
                                       && (d.act.counter == "" || d.act.counter == counter)|
  {
    AskAppend(ds, d, rules, c);
    NotedConcat(AskOf(ds, rules, c).notes, NotesBy(rules, d, c), counter, axis);
    NotedByRules(rules, d, c, counter, axis);
    ReachesAxis(d.act.apply, axis);
    NotedOnce(d, rules, c, counter, axis);
  }

  lemma NotedOnce(d: Delivery, rules: seq<PriorRule>, c: Config, counter: string, axis: string)
    requires d.act.do == NOTE && c.HasAxis(counter, axis) && d.act.apply != "" && axis in Reach(d.act.apply)
    ensures NotedBy(rules, d, c, counter, axis)
         == d.act.value * |set i | 0 <= i < |rules| && rules[i].from == d.from && NOTE in rules[i].accept
                                  && (rules[i].apply == [] || d.act.apply in rules[i].apply)
                                  && (rules[i].codes == [] || d.act.code in rules[i].codes)
                                  && rules[i].counter == counter
                                  && (d.act.counter == "" || d.act.counter == counter)|
  {
    var places := set i | 0 <= i < |rules| && rules[i].from == d.from && NOTE in rules[i].accept
                          && (rules[i].apply == [] || d.act.apply in rules[i].apply)
                          && (rules[i].codes == [] || d.act.code in rules[i].codes)
                          && rules[i].counter == counter && (d.act.counter == "" || d.act.counter == counter);
    NotedByMatching(rules, d, c, counter, axis, places);
  }

  lemma ReachesAxis(apply: string, axis: string)
    requires || (apply == "ip" && axis == "ip")
             || (apply == "asn" && (axis == "asn_net" || axis == "asn_router"))
             || (apply == "session" && axis == "sess")
    ensures apply != "" && axis in Reach(apply)
  {}

  lemma {:induction false} TakenByMatching(rules: seq<PriorRule>, d: Delivery, c: Config, places: set<int>)
    requires d.act.do == THRESHOLD
    requires places == set i | 0 <= i < |rules| && Wants(rules[i], d)
    ensures TakenBy(rules, d, c) == d.act.delta * |places|
  {
    if rules == [] {
      assert places == {};
    } else {
      var n := |rules| - 1;
      TakenByMatching(rules[..n], d, c, places - {n});
      Counted(places, n, d.act.delta);
    }
  }

  lemma {:induction false} NotedByMatching(rules: seq<PriorRule>, d: Delivery, c: Config, counter: string, axis: string,
                                           places: set<int>)
    requires d.act.do == NOTE && c.HasAxis(counter, axis) && axis in Reach(d.act.Scope())
    requires places == set i | 0 <= i < |rules| && Wants(rules[i], d) && rules[i].counter == counter
    ensures NotedBy(rules, d, c, counter, axis) == d.act.value * |places|
  {
    if rules == [] {
      assert places == {};
    } else {
      var n := |rules| - 1;
      NotedByMatching(rules[..n], d, c, counter, axis, places - {n});
      PresentMembers(c, counter, Reach(d.act.Scope()), axis);
      Counted(places, n, d.act.value);
    }
  }

  lemma Counted(places: set<int>, n: int, v: int)
    ensures v * |places| == v * |places - {n}| + if n in places then v else 0
  {
    if n in places {
      assert places == (places - {n}) + {n};
    } else {
      assert places == places - {n};
    }
  }

  /** Every delivery is answered for, in order. */
  lemma {:induction false} OneOutcomeEach(ds: seq<Delivery>, rules: seq<PriorRule>, c: Config)
    ensures var outcomes := AskOf(ds, rules, c).outcomes;
      |outcomes| == |ds| && forall i :: 0 <= i < |ds| ==> outcomes[i] == OutcomeOf(rules, ds[i], c)
  {
    if ds != [] {
      OneOutcomeEach(ds[..|ds| - 1], rules, c);
    }
  }

  /** What is reported of a delivery: no rule if none accepts it, no counter if it is a note worth something that only
      reaches axes the accepting rules' counters lack, and otherwise that it was applied. */
  lemma OutcomeSays(rules: seq<PriorRule>, d: Delivery, c: Config)
    requires d.act.do in ["skip", "threshold", "note"]
    ensures OutcomeOf(rules, d, c).from == d.from && OutcomeOf(rules, d, c).action == d.act
    ensures OutcomeOf(rules, d, c).result == NoRule <==> forall r :: r in rules ==> !Wants(r, d)
    ensures OutcomeOf(rules, d, c).result == NoCounter
        <==> && d.act.do == "note" && d.act.value != 0 && (exists r :: r in rules && Wants(r, d))
             && forall r :: r in rules && Wants(r, d) ==> NoteAxesOf(c, r.counter, d.act.Scope()) == []
  {
    assert SKIP != THRESHOLD && SKIP != NOTE && THRESHOLD != NOTE by {
      assert |SKIP| == 4 && |THRESHOLD| == 9 && |NOTE| == 4 && SKIP[0] != NOTE[0];
    }
    assert forall i :: 0 <= i < |rules| && Wants(rules[i], d) && d.act.do != NOTE ==> Resolves(rules[i], d, c);
    assert forall i :: 0 <= i < |rules| && Resolves(rules[i], d, c) ==> rules[i] in rules && Wants(rules[i], d);
  }

  /** What is reported as taken: the delta of a threshold once per accepting rule, the value of a note once per accepting
      rule whose counter has an axis it reaches, and nothing of a skip. */
  lemma OutcomeTook(rules: seq<PriorRule>, d: Delivery, c: Config)
    ensures d.act.do == "skip" ==> OutcomeOf(rules, d, c).took == 0
    ensures d.act.do == "threshold" ==>
      OutcomeOf(rules, d, c).took == d.act.delta * |set i | 0 <= i < |rules| && Wants(rules[i], d)|
    ensures d.act.do == "note" ==>
      OutcomeOf(rules, d, c).took == d.act.value * |set i | 0 <= i < |rules| && Wants(rules[i], d)
                                                           && NoteAxesOf(c, rules[i].counter, d.act.Scope()) != []|
  {
    assert |SKIP| == 4 && |THRESHOLD| == 9 && |NOTE| == 4 && SKIP[0] != NOTE[0];
    if d.act.do == SKIP {
      SkipTakesNothing(rules, d, c);
    } else if d.act.do == THRESHOLD {
      TakenByMatching(rules, d, c, set i | 0 <= i < |rules| && Wants(rules[i], d));
    } else if d.act.do == NOTE {
      TakenByNoting(rules, d, c, set i | 0 <= i < |rules| && Wants(rules[i], d)
                                         && NoteAxesOf(c, rules[i].counter, d.act.Scope()) != []);
    }
  }

  lemma {:induction false} SkipTakesNothing(rules: seq<PriorRule>, d: Delivery, c: Config)
    requires d.act.do != THRESHOLD && d.act.do != NOTE
    ensures TakenBy(rules, d, c) == 0
  {
    if rules != [] {
      SkipTakesNothing(rules[..|rules| - 1], d, c);
    }
  }

  lemma {:induction false} TakenByNoting(rules: seq<PriorRule>, d: Delivery, c: Config, places: set<int>)
    requires d.act.do == NOTE && NOTE != THRESHOLD
    requires places == set i | 0 <= i < |rules| && Wants(rules[i], d)
                               && NoteAxesOf(c, rules[i].counter, d.act.Scope()) != []
    ensures TakenBy(rules, d, c) == d.act.value * |places|
  {
    if rules == [] {
      assert places == {};
    } else {
      var n := |rules| - 1;
      TakenByNoting(rules[..n], d, c, places - {n});
      Counted(places, n, d.act.value);
    }
  }

  /** What one delivery adds to the notes on a counter's axis. */
  function Noted(notes: seq<NoteCharge>, counter: string, axis: string): int {
    if notes == [] then 0
    else
      var n := |notes| - 1;
      Noted(notes[..n], counter, axis) + if notes[n].counter == counter && notes[n].axis == axis then notes[n].percent else 0
  }

  lemma {:induction false} NotedConcat(a: seq<NoteCharge>, b: seq<NoteCharge>, counter: string, axis: string)
    ensures Noted(a + b, counter, axis) == Noted(a, counter, axis) + Noted(b, counter, axis)
  {
    if b == [] {
      assert a + b == a;
    } else {
      var n := |b| - 1;
      assert (a + b)[..|a| + n] == a + b[..n];
      NotedConcat(a, b[..n], counter, axis);
    }
  }

  /** What the rules charge one axis of one counter for one delivery. */
  function NotedBy(rules: seq<PriorRule>, d: Delivery, c: Config, counter: string, axis: string): int {
    if rules == [] then 0
    else
      var n := |rules| - 1;
      NotedBy(rules[..n], d, c, counter, axis)
      + if rules[n].counter == counter && axis in Reach(d.act.Scope()) && d.act.do == NOTE && c.HasAxis(counter, axis)
        then Taken(rules[n], d, c) else 0
  }

  lemma {:induction false} NotedOnAxes(counter: string, axes: seq<string>, d: Delivery, axis: string)
    requires Distinct(axes)
    ensures Noted(NotesFor(counter, axes, d), counter, axis) == if axis in axes then d.act.value else 0
  {
    if axes != [] {
      var n := |axes| - 1;
      NotedOnAxes(counter, axes[..n], d, axis);
      assert NotesFor(counter, axes, d)[..n] == NotesFor(counter, axes[..n], d);
      assert axes == axes[..n] + [axes[n]];
    }
  }

  lemma {:induction false} NotedElsewhere(counter: string, axes: seq<string>, d: Delivery, other: string, axis: string)
    requires counter != other
    ensures Noted(NotesFor(counter, axes, d), other, axis) == 0
  {
    if axes != [] {
      var n := |axes| - 1;
      NotedElsewhere(counter, axes[..n], d, other, axis);
      assert NotesFor(counter, axes, d)[..n] == NotesFor(counter, axes[..n], d);
    }
  }

  lemma NotedByOne(r: PriorRule, d: Delivery, c: Config, counter: string, axis: string)
    ensures Noted(NotesOf(r, d, c), counter, axis)
      == if r.counter == counter && axis in Reach(d.act.Scope()) && d.act.do == NOTE && c.HasAxis(counter, axis)
         then Taken(r, d, c) else 0
  {
    var axes := NoteAxesOf(c, r.counter, d.act.Scope());
    PresentMembers(c, r.counter, Reach(d.act.Scope()), axis);
    PresentDistinct(c, r.counter, Reach(d.act.Scope()));
    if r.counter == counter {
      NotedOnAxes(counter, axes, d, axis);
    } else {
      NotedElsewhere(r.counter, axes, d, counter, axis);
    }
  }

  lemma {:induction false} NotedByRules(rules: seq<PriorRule>, d: Delivery, c: Config, counter: string, axis: string)
    ensures Noted(NotesBy(rules, d, c), counter, axis) == NotedBy(rules, d, c, counter, axis)
  {
    if rules != [] {
      var n := |rules| - 1;
      NotedByRules(rules[..n], d, c, counter, axis);
      NotedConcat(NotesBy(rules[..n], d, c), NotesOf(rules[n], d, c), counter, axis);
      NotedByOne(rules[n], d, c, counter, axis);
    }
  }

  function TotalNoted(ds: seq<Delivery>, rules: seq<PriorRule>, c: Config, counter: string, axis: string): int {
    if ds == [] then 0
    else
      var n := |ds| - 1;
      TotalNoted(ds[..n], rules, c, counter, axis) + NotedBy(rules, ds[n], c, counter, axis)
  }

  /** The notes on an axis add up to the values of the matching notes delivered: one charge per delivery, rule
      and axis. */
  lemma {:induction false} NotesAddUp(ds: seq<Delivery>, rules: seq<PriorRule>, c: Config, counter: string, axis: string)
    ensures Noted(AskOf(ds, rules, c).notes, counter, axis) == TotalNoted(ds, rules, c, counter, axis)
  {
    if ds != [] {
      var n := |ds| - 1;
      NotesAddUp(ds[..n], rules, c, counter, axis);
      NotedConcat(AskOf(ds[..n], rules, c).notes, NotesBy(rules, ds[n], c), counter, axis);
      NotedByRules(rules, ds[n], c, counter, axis);
    }
  }

  /** Every note charged is one that was delivered and accepted: with its value, which is not zero, its code and its
      sender, on the counter of a rule that names the sender, and on an axis that the note reaches and the counter has. */
  lemma {:induction false} NotesAreReal(ds: seq<Delivery>, rules: seq<PriorRule>, c: Config)
    ensures forall n :: n in AskOf(ds, rules, c).notes ==>
              && n.percent != 0 && c.HasAxis(n.counter, n.axis)
              && exists d, r ::
                   && d in ds && r in rules && d.act.do == "note" && r.from == d.from && "note" in r.accept
                   && n == NoteCharge(r.counter, n.axis, d.act.value, d.act.code, d.from)
                   && ((d.act.apply == "ip" && n.axis == "ip")
                       || (d.act.apply == "asn" && (n.axis == "asn_net" || n.axis == "asn_router"))
                       || (d.act.apply == "session" && n.axis == "sess"))
  {
    forall n | n in AskOf(ds, rules, c).notes
      ensures n.percent != 0 && c.HasAxis(n.counter, n.axis)
      ensures exists d, r ::
                && d in ds && r in rules && d.act.do == "note" && r.from == d.from && "note" in r.accept
                && n == NoteCharge(r.counter, n.axis, d.act.value, d.act.code, d.from)
                && ((d.act.apply == "ip" && n.axis == "ip")
                    || (d.act.apply == "asn" && (n.axis == "asn_net" || n.axis == "asn_router"))
                    || (d.act.apply == "session" && n.axis == "sess"))
    {
      var d, r := NoteIsDelivered(ds, rules, c, n);
      NoteIsReal(r, d, c, n);
    }
  }

  lemma NoteIsReal(r: PriorRule, d: Delivery, c: Config, n: NoteCharge)
    requires n in NotesOf(r, d, c)
    ensures d.act.do == "note" && r.from == d.from && "note" in r.accept
    ensures n.percent != 0 && c.HasAxis(n.counter, n.axis)
    ensures n == NoteCharge(r.counter, n.axis, d.act.value, d.act.code, d.from)
    ensures || (d.act.apply == "ip" && n.axis == "ip")
            || (d.act.apply == "asn" && (n.axis == "asn_net" || n.axis == "asn_router"))
            || (d.act.apply == "session" && n.axis == "sess")
  {
    PresentMembers(c, r.counter, Reach(d.act.Scope()), n.axis);
    assert REQUEST != "ip" && REQUEST != "asn" && |REQUEST| == 7 && |"session"| == 7 && REQUEST[0] != "session"[0];
  }

  lemma {:induction false} NoteIsDelivered(ds: seq<Delivery>, rules: seq<PriorRule>, c: Config, n: NoteCharge)
    returns (d: Delivery, r: PriorRule)
    requires n in AskOf(ds, rules, c).notes
    ensures d in ds && r in rules && n in NotesOf(r, d, c)
  {
    var k := |ds| - 1;
    if n in AskOf(ds[..k], rules, c).notes {
      d, r := NoteIsDelivered(ds[..k], rules, c, n);
    } else {
      d := ds[k];
      r := NoteHasRule(rules, d, c, n);
    }
  }

  lemma {:induction false} NoteHasRule(rules: seq<PriorRule>, d: Delivery, c: Config, n: NoteCharge)
    returns (r: PriorRule)
    requires n in NotesBy(rules, d, c)
    ensures r in rules && n in NotesOf(r, d, c)
  {
    var k := |rules| - 1;
    if n in NotesBy(rules[..k], d, c) {
      r := NoteHasRule(rules[..k], d, c, n);
    } else {
      r := rules[k];
    }
  }

  // ---------- a note is charged in one phase ----------

  /** A note belongs to two phases in one case only: with the request phase off, one from the request belongs to the
      response as well, and then no request phase runs that could charge it. */
  lemma OnePhaseExactly(recorded: string, p: string, q: string, requestEnabled: bool)
    requires p != q
    ensures ChargeHere(recorded, p, requestEnabled) && ChargeHere(recorded, q, requestEnabled)
        <==> !requestEnabled && {p, q} == {REQUEST, RESPONSE} && recorded in {"", REQUEST}
  {
    assert |REQUEST| != |RESPONSE|;
    assert {p, q} == {REQUEST, RESPONSE} <==> (p == REQUEST && q == RESPONSE) || (p == RESPONSE && q == REQUEST) by {
      if {p, q} == {REQUEST, RESPONSE} {
        assert p in {REQUEST, RESPONSE} && q in {REQUEST, RESPONSE};
      }
    }
  }

  /** Everything the entries carry, due or not. */
  function Carried(entries: seq<Entry>): seq<Delivery> {
    if entries == [] then []
    else
      var n := |entries| - 1; Carried(entries[..n]) + CarriedBy(entries[n], entries[n].actions)
  }

  function CarriedBy(e: Entry, acts: seq<Action>): seq<Delivery> {
    seq(|acts|, i requires 0 <= i < |acts| => Delivery(e.inspector, acts[i]))
  }

  function Once(yes: bool): nat {
    if yes then 1 else 0
  }

  lemma DueCounts(e: Entry, acts: seq<Action>, phase: string, requestEnabled: bool, d: Delivery)
    requires acts != []
    ensures var n := |acts| - 1;
      multiset(DueOf(e, acts, phase, requestEnabled))[d]
      == multiset(DueOf(e, acts[..n], phase, requestEnabled))[d]
         + Once(Due(e, acts[n], phase, requestEnabled) && Delivery(e.inspector, acts[n]) == d)
  {}

  lemma CarriedCounts(e: Entry, acts: seq<Action>, d: Delivery)
    requires acts != []
    ensures var n := |acts| - 1;
      multiset(CarriedBy(e, acts))[d] == multiset(CarriedBy(e, acts[..n]))[d] + Once(Delivery(e.inspector, acts[n]) == d)
  {
    var n := |acts| - 1;
    assert CarriedBy(e, acts) == CarriedBy(e, acts[..n]) + [Delivery(e.inspector, acts[n])];
  }

  lemma {:induction false} EntryChargesOnce(e: Entry, acts: seq<Action>, p: string, q: string, d: Delivery)
    requires p != q && d.act.do == NOTE
    ensures multiset(DueOf(e, acts, p, true))[d] + multiset(DueOf(e, acts, q, true))[d] <= multiset(CarriedBy(e, acts))[d]
  {
    if acts != [] {
      EntryChargesOnce(e, acts[..|acts| - 1], p, q, d);
      DueCounts(e, acts, p, true, d);
      DueCounts(e, acts, q, true, d);
      CarriedCounts(e, acts, d);
      OnePhaseExactly(e.phase, p, q, true);
    }
  }

  /** With the request phase on, no note is delivered in two phases: the deliveries of any two phases together hold each
      note at most as often as the entries carry it. */
  lemma {:induction false} NotesAreChargedOnce(entries: seq<Entry>, p: string, q: string, d: Delivery)
    requires p != q && d.act.do == NOTE
    ensures multiset(Deliveries(entries, p, true))[d] + multiset(Deliveries(entries, q, true))[d]
         <= multiset(Carried(entries))[d]
  {
    if entries != [] {
      var n := |entries| - 1;
      NotesAreChargedOnce(entries[..n], p, q, d);
      EntryChargesOnce(entries[n], entries[n].actions, p, q, d);
    }
  }

  // ---------- the order of the deliveries does not matter ----------

  /** A total over the deliveries: of what is taken, or of what is noted on an axis. */
  function SumBy(ds: seq<Delivery>, f: Delivery -> int): int {
    if ds == [] then 0 else SumBy(ds[..|ds| - 1], f) + f(ds[|ds| - 1])
  }

  lemma {:induction false} SumByConcat(a: seq<Delivery>, b: seq<Delivery>, f: Delivery -> int)
    ensures SumBy(a + b, f) == SumBy(a, f) + SumBy(b, f)
  {
    if b == [] {
      assert a + b == a;
    } else {
      var n := |b| - 1;
      assert (a + b)[..|a| + n] == a + b[..n];
      SumByConcat(a, b[..n], f);
    }
  }

  lemma {:induction false} SumByPermutation(a: seq<Delivery>, b: seq<Delivery>, f: Delivery -> int)
    requires multiset(a) == multiset(b)
    ensures SumBy(a, f) == SumBy(b, f)
    decreases |a|
  {
    if a == [] {
      assert |multiset(b)| == 0;
    } else {
      var n := |a| - 1;
      assert a == a[..n] + [a[n]];
      assert a[n] in multiset(b);
      var k :| 0 <= k < |b| && b[k] == a[n];
      TakenOut(b, k);
      assert multiset(a[..n]) == multiset(a) - multiset{a[n]};
      SumByPermutation(a[..n], b[..k] + b[k + 1..], f);
      SumByTakenOut(b, k, f);
    }
  }

  lemma TakenOut(s: seq<Delivery>, k: nat)
    requires k < |s|
    ensures multiset(s[..k] + s[k + 1..]) == multiset(s) - multiset{s[k]}
  {
    assert s == s[..k] + ([s[k]] + s[k + 1..]);
  }

  lemma SumByTakenOut(s: seq<Delivery>, k: nat, f: Delivery -> int)
    requires k < |s|
    ensures SumBy(s, f) == SumBy(s[..k] + s[k + 1..], f) + f(s[k])
  {
    assert s == s[..k] + ([s[k]] + s[k + 1..]);
    SumByConcat(s[..k], s[k + 1..], f);
    SumByConcat(s[..k], [s[k]] + s[k + 1..], f);
    SumByConcat([s[k]], s[k + 1..], f);
  }

  function Deltas(rules: seq<PriorRule>, c: Config): Delivery -> int {
    (d: Delivery) => if d.act.do == THRESHOLD then TakenBy(rules, d, c) else 0
  }

  function NotesTo(rules: seq<PriorRule>, c: Config, counter: string, axis: string): Delivery -> int {
    (d: Delivery) => NotedBy(rules, d, c, counter, axis)
  }

  lemma {:induction false} AskSums(ds: seq<Delivery>, rules: seq<PriorRule>, c: Config, counter: string, axis: string)
    ensures AskOf(ds, rules, c).percent == SumBy(ds, Deltas(rules, c))
    ensures TotalNoted(ds, rules, c, counter, axis) == SumBy(ds, NotesTo(rules, c, counter, axis))
  {
    if ds != [] {
      AskSums(ds[..|ds| - 1], rules, c, counter, axis);
    }
  }

  lemma {:induction false} AskSkips(ds: seq<Delivery>, rules: seq<PriorRule>, c: Config)
    ensures AskOf(ds, rules, c).skip <==> exists d :: d in ds && AnySkips(rules, d)
  {
    if ds != [] {
      var n := |ds| - 1;
      AskSkips(ds[..n], rules, c);
      assert ds == ds[..n] + [ds[n]];
    }
  }

  /** In whatever order the same actions arrive, the skip, the percent and the sum of the notes on every axis are
      the same. */
  lemma OrderIsIrrelevant(ds: seq<Delivery>, ds': seq<Delivery>, rules: seq<PriorRule>, c: Config, counter: string,
                          axis: string)
    requires multiset(ds) == multiset(ds')
    ensures var a, b := AskOf(ds, rules, c), AskOf(ds', rules, c);
      && a.skip == b.skip && a.percent == b.percent
      && Noted(a.notes, counter, axis) == Noted(b.notes, counter, axis)
  {
    AskSums(ds, rules, c, counter, axis);
    AskSums(ds', rules, c, counter, axis);
    AskSkips(ds, rules, c);
    AskSkips(ds', rules, c);
    SumByPermutation(ds, ds', Deltas(rules, c));
    SumByPermutation(ds, ds', NotesTo(rules, c, counter, axis));
    assert forall d :: d in ds <==> d in multiset(ds);
    assert forall d :: d in ds' <==> d in multiset(ds');
    NotesAddUp(ds, rules, c, counter, axis);
    NotesAddUp(ds', rules, c, counter, axis);
  }
}
