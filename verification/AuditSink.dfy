/** The audit sink: a buffer that drops its oldest events when it overflows, emptied in batches that go out
    grouped by subject. */
module AuditSink {
  import opened Sequences

  const MAX_ITEMS := 256
  const MAX_SIZE := 524288
  const MAX_PENDING := 50000

  /** `body` is the encoded event. */
  datatype Item = Item(subject: string, body: string)

  /** One message on the wire. */
  datatype Message = Message(subject: string, items: seq<Item>)

  function SizeOf(items: seq<Item>): nat {
    if items == [] then 0 else SizeOf(items[..|items| - 1]) + |items[|items| - 1].body| + 2
  }

  function Only(items: seq<Item>, subject: string): seq<Item> {
    if items == [] then []
    else
      var n := |items| - 1;
      Only(items[..n], subject) + if items[n].subject == subject then [items[n]] else []
  }

  lemma {:induction false} OnlyConcat(a: seq<Item>, b: seq<Item>, subject: string)
    ensures Only(a + b, subject) == Only(a, subject) + Only(b, subject)
  {
    if b == [] {
      assert a + b == a;
    } else {
      var n := |b| - 1;
      assert (a + b)[..|a| + n] == a + b[..n];
      OnlyConcat(a, b[..n], subject);
    }
  }

  /** The events of a subject are all that have it, as often as they occur, and in their order. */
  lemma {:induction false} OnlyCount(items: seq<Item>, subject: string, it: Item)
    ensures multiset(Only(items, subject))[it] == if it.subject == subject then multiset(items)[it] else 0
  {
    if items != [] {
      var n := |items| - 1;
      OnlyCount(items[..n], subject, it);
      assert items == items[..n] + [items[n]];
    }
  }

  lemma {:induction false} OnlyWithin(items: seq<Item>, subject: string)
    ensures Within(Only(items, subject), items)
  {
    if items != [] {
      var n := |items| - 1;
      OnlyWithin(items[..n], subject);
      assert items == items[..n] + [items[n]];
      if items[n].subject == subject {
        WithinBoth(Only(items[..n], subject), items[..n], items[n]);
      } else {
        assert Only(items, subject) == Only(items[..n], subject);
        WithinLonger(Only(items[..n], subject), items[..n], items[n]);
      }
    }
  }

  // ---------- grouping ----------

  /** The subjects in order of first appearance. */
  function Subjects(items: seq<Item>): seq<string> {
    if items == [] then []
    else
      var n := |items| - 1;
      var before := Subjects(items[..n]);
      if items[n].subject in before then before else before + [items[n].subject]
  }

  /** The subjects seen so far in order, and for each its events. */
  ghost predicate Grouped(order: seq<string>, bySubject: map<string, seq<Item>>, items: seq<Item>) {
    && order == Subjects(items)
    && (forall s :: s in order <==> s in bySubject)
    && forall s :: Only(items, s) == if s in bySubject then bySubject[s] else []
  }

  lemma GroupedMore(order: seq<string>, bySubject: map<string, seq<Item>>, items: seq<Item>, it: Item)
    requires Grouped(order, bySubject, items) && it.subject in bySubject
    ensures Grouped(order, bySubject[it.subject := bySubject[it.subject] + [it]], items + [it])
  {
    SubjectsStep(items, it);
    forall s ensures Only(items + [it], s) == if it.subject == s then Only(items, s) + [it] else Only(items, s) {
      OnlyStep(items, it, s);
    }
  }

  lemma GroupedNew(order: seq<string>, bySubject: map<string, seq<Item>>, items: seq<Item>, it: Item)
    requires Grouped(order, bySubject, items) && it.subject !in bySubject
    ensures Grouped(order + [it.subject], bySubject[it.subject := [it]], items + [it])
  {
    SubjectsStep(items, it);
    forall s ensures Only(items + [it], s) == if it.subject == s then Only(items, s) + [it] else Only(items, s) {
      OnlyStep(items, it, s);
    }
  }

  lemma SubjectsStep(items: seq<Item>, it: Item)
    ensures Subjects(items + [it])
         == if it.subject in Subjects(items) then Subjects(items) else Subjects(items) + [it.subject]
  {
    assert (items + [it])[..|items|] == items;
  }

  method GroupBySubject(items: seq<Item>) returns (order: seq<string>, bySubject: map<string, seq<Item>>)
    ensures order == Subjects(items)
    ensures forall s :: s in order <==> s in bySubject
    ensures forall s :: s in bySubject ==> bySubject[s] == Only(items, s)
  {
    order, bySubject := [], map[];
    for i := 0 to |items|
      invariant Grouped(order, bySubject, items[..i])
    {
      var it := items[i];
      assert items[..i + 1] == items[..i] + [it];
      if it.subject !in bySubject {
        GroupedNew(order, bySubject, items[..i], it);
        order := order + [it.subject];
        bySubject := bySubject[it.subject := [it]];
      } else {
        GroupedMore(order, bySubject, items[..i], it);
        bySubject := bySubject[it.subject := bySubject[it.subject] + [it]];
      }
    }
    assert items[..|items|] == items;
  }

  lemma OnlyStep(items: seq<Item>, it: Item, subject: string)
    ensures Only(items + [it], subject)
         == if it.subject == subject then Only(items, subject) + [it] else Only(items, subject)
  {
    assert (items + [it])[..|items|] == items;
  }

  /** The messages a batch goes out as. */
  function Messages(items: seq<Item>, order: seq<string>): seq<Message> {
    if order == [] then []
    else
      var n := |order| - 1;
      Messages(items, order[..n]) + [Message(order[n], Only(items, order[n]))]
  }

  lemma OneMessage(items: seq<Item>)
    requires |items| == 1
    ensures Messages(items, Subjects(items)) == [Message(items[0].subject, items)]
  {
    var it := items[0];
    assert items == [it] && items[..0] == [];
    assert Subjects(items) == [it.subject];
    assert Only(items, it.subject) == items;
    assert [it.subject][..0] == [];
  }

  method Publish(items: seq<Item>) returns (sent: seq<Message>)
    requires items != []
    ensures sent == Messages(items, Subjects(items))
  {
    if |items| == 1 {
      OneMessage(items);
      return [Message(items[0].subject, items)];
    }
    var order, bySubject := GroupBySubject(items);
    sent := [];
    for i := 0 to |order|
      invariant sent == Messages(items, order[..i])
    {
      assert order[..i + 1][..i] == order[..i];
      sent := sent + [Message(order[i], bySubject[order[i]])];
    }
    assert order[..|order|] == order;
  }

  /** The events of a subject, in the order they are on the wire. */
  function OnWire(wire: seq<Message>, subject: string): seq<Item> {
    if wire == [] then []
    else
      var n := |wire| - 1;
      OnWire(wire[..n], subject) + if wire[n].subject == subject then wire[n].items else []
  }

  lemma {:induction false} OnWireConcat(a: seq<Message>, b: seq<Message>, subject: string)
    ensures OnWire(a + b, subject) == OnWire(a, subject) + OnWire(b, subject)
  {
    if b == [] {
      assert a + b == a;
    } else {
      var n := |b| - 1;
      assert (a + b)[..|a| + n] == a + b[..n];
      OnWireConcat(a, b[..n], subject);
    }
  }

  lemma {:induction false} SubjectsAreDistinct(items: seq<Item>)
    ensures forall i, j :: 0 <= i < j < |Subjects(items)| ==> Subjects(items)[i] != Subjects(items)[j]
    ensures forall s :: s in Subjects(items) <==> exists it :: it in items && it.subject == s
  {
    if items != [] {
      var n := |items| - 1;
      SubjectsAreDistinct(items[..n]);
      assert items == items[..n] + [items[n]];
    }
  }

  lemma ItemOf(items: seq<Item>, subject: string) returns (it: Item)
    requires subject in Subjects(items)
    ensures it in items && it.subject == subject
  {
    SubjectsAreDistinct(items);
    it :| it in items && it.subject == subject;
  }

  lemma OnlyIsReal(items: seq<Item>, subject: string)
    requires subject in Subjects(items)
    ensures Only(items, subject) != []
  {
    var it := ItemOf(items, subject);
    OnlyCount(items, subject, it);
    assert it in multiset(items);
    assert it in multiset(Only(items, subject));
  }

  /** Of two subjects the one that appears first comes first. */
  lemma {:induction false} FirstComesFirst(items: seq<Item>, i: nat, j: nat) returns (p: nat)
    requires i < j < |Subjects(items)|
    ensures p < |items| && items[p].subject == Subjects(items)[i]
    ensures forall q :: 0 <= q <= p ==> items[q].subject != Subjects(items)[j]
  {
    var n := |items| - 1;
    var before := Subjects(items[..n]);
    SubjectsAreDistinct(items);
    SubjectsAreDistinct(items[..n]);
    if j < |before| {
      p := FirstComesFirst(items[..n], i, j);
    } else {
      var it := ItemOf(items[..n], before[i]);
      p :| 0 <= p < n && items[p] == it;
      forall q | 0 <= q <= p ensures items[q].subject != Subjects(items)[j] {
        assert items[..n][q] in items[..n];
      }
    }
  }

  /** A message for every subject of the batch and no other, each with all its events and only those, as `Only` gives
      them. */
  lemma {:induction false} MessagesSay(items: seq<Item>, order: seq<string>)
    ensures |Messages(items, order)| == |order|
    ensures forall i :: 0 <= i < |order| ==> Messages(items, order)[i] == Message(order[i], Only(items, order[i]))
  {
    if order != [] {
      MessagesSay(items, order[..|order| - 1]);
    }
  }

  lemma {:induction false} NoItemsOfOthers(items: seq<Item>, subject: string)
    requires forall it :: it in items ==> it.subject != subject
    ensures Only(items, subject) == []
  {
    if items != [] {
      NoItemsOfOthers(items[..|items| - 1], subject);
    }
  }

  lemma OnWireAppend(wire: seq<Message>, m: Message, subject: string)
    ensures OnWire(wire + [m], subject)
         == if m.subject == subject then OnWire(wire, subject) + m.items else OnWire(wire, subject)
  {
    assert (wire + [m])[..|wire|] == wire;
  }

  lemma {:induction false} NoMessages(items: seq<Item>, order: seq<string>, subject: string)
    requires forall i :: 0 <= i < |order| ==> order[i] != subject
    ensures OnWire(Messages(items, order), subject) == []
  {
    if order != [] {
      var n := |order| - 1;
      NoMessages(items, order[..n], subject);
      OnWireAppend(Messages(items, order[..n]), Message(order[n], Only(items, order[n])), subject);
    }
  }

  lemma {:induction false} MessagesOnWire(items: seq<Item>, order: seq<string>, k: nat)
    requires k < |order| && forall i, j :: 0 <= i < j < |order| ==> order[i] != order[j]
    ensures OnWire(Messages(items, order), order[k]) == Only(items, order[k])
  {
    var n := |order| - 1;
    OnWireAppend(Messages(items, order[..n]), Message(order[n], Only(items, order[n])), order[k]);
    if k < n {
      MessagesOnWire(items, order[..n], k);
    } else {
      NoMessages(items, order[..n], order[k]);
    }
  }

  /** Grouping keeps, for each subject, exactly its events in their order. */
  lemma BatchOnWire(items: seq<Item>, subject: string)
    ensures OnWire(Messages(items, Subjects(items)), subject) == Only(items, subject)
  {
    var order := Subjects(items);
    SubjectsAreDistinct(items);
    if subject in order {
      var k :| 0 <= k < |order| && order[k] == subject;
      MessagesOnWire(items, order, k);
    } else {
      NoMessages(items, order, subject);
      NoItemsOfOthers(items, subject);
    }
  }

  /** For every subject the wire carries its events, in order. */
  ghost predicate AllOnWire(wire: seq<Message>, sent: seq<Item>) {
    forall s :: OnWire(wire, s) == Only(sent, s)
  }

  lemma BatchKeepsWire(wire: seq<Message>, sent: seq<Item>, batch: seq<Item>)
    requires AllOnWire(wire, sent)
    ensures AllOnWire(wire + Messages(batch, Subjects(batch)), sent + batch)
  {
    var messages := Messages(batch, Subjects(batch));
    forall s ensures OnWire(wire + messages, s) == Only(sent + batch, s) {
      OnWireConcat(wire, messages, s);
      OnlyConcat(sent, batch, s);
      BatchOnWire(batch, s);
    }
  }

  lemma BatchIsSplit(batch: seq<Item>)
    ensures var messages := Messages(batch, Subjects(batch));
      && (forall m :: m in messages ==> m.items == Only(batch, m.subject) && m.items != [])
      && (forall it :: it in batch ==> exists i :: 0 <= i < |messages| && messages[i].subject == it.subject)
      && forall i, j :: 0 <= i < j < |messages| ==> messages[i].subject != messages[j].subject
  {
    var order, messages := Subjects(batch), Messages(batch, Subjects(batch));
    MessagesSay(batch, order);
    forall m | m in messages ensures m.items == Only(batch, m.subject) && m.items != [] {
      var i :| 0 <= i < |messages| && messages[i] == m;
      OnlyIsReal(batch, order[i]);
    }
    forall it | it in batch ensures exists i :: 0 <= i < |messages| && messages[i].subject == it.subject {
      var i := SubjectOf(batch, it);
      assert messages[i].subject == it.subject;
    }
    SubjectsAreDistinct(batch);
  }

  lemma SubjectOf(items: seq<Item>, it: Item) returns (i: nat)
    requires it in items
    ensures i < |Subjects(items)| && Subjects(items)[i] == it.subject
  {
    SubjectsAreDistinct(items);
    assert it.subject in Subjects(items);
    i :| 0 <= i < |Subjects(items)| && Subjects(items)[i] == it.subject;
  }

  // ---------- what was dropped ----------

  /** The events not marked as dropped. */
  function Survivors(events: seq<Item>, dead: seq<bool>): seq<Item>
    requires |dead| == |events|
  {
    if events == [] then []
    else (if dead[0] then [] else [events[0]]) + Survivors(events[1..], dead[1..])
  }

  function Deaths(dead: seq<bool>): (n: nat)
    ensures n <= |dead|
  {
    if dead == [] then 0 else (if dead[0] then 1 else 0) + Deaths(dead[1..])
  }

  /** Marks `cut` more events as dropped: the oldest ones after the first `skip` survivors. */
  function Bury(dead: seq<bool>, skip: nat, cut: nat): (r: seq<bool>)
    ensures |r| == |dead|
  {
    if dead == [] then []
    else if dead[0] then [true] + Bury(dead[1..], skip, cut)
    else if skip > 0 then [false] + Bury(dead[1..], skip - 1, cut)
    else if cut > 0 then [true] + Bury(dead[1..], 0, cut - 1)
    else [false] + Bury(dead[1..], 0, 0)
  }

  lemma {:induction false} SurvivorsAppend(events: seq<Item>, dead: seq<bool>, it: Item)
    requires |dead| == |events|
    ensures Survivors(events + [it], dead + [false]) == Survivors(events, dead) + [it]
    ensures Deaths(dead + [false]) == Deaths(dead)
  {
    if events == [] {
      assert Survivors([it], [false]) == [it] + Survivors([it][1..], [false][1..]);
      assert events + [it] == [it] && dead + [false] == [false];
    } else {
      assert (events + [it])[1..] == events[1..] + [it] && (dead + [false])[1..] == dead[1..] + [false];
      SurvivorsAppend(events[1..], dead[1..], it);
    }
  }

  lemma HeadSurvives(events: seq<Item>, head: bool, dead: seq<bool>)
    requires |events| == 1 + |dead|
    ensures Survivors(events, [head] + dead) == (if head then [] else [events[0]]) + Survivors(events[1..], dead)
  {
    assert ([head] + dead)[1..] == dead;
  }

  lemma HeadCounts(head: bool, dead: seq<bool>)
    ensures Deaths([head] + dead) == (if head then 1 else 0) + Deaths(dead)
  {
    assert ([head] + dead)[1..] == dead;
  }

  /** Burying removes a stretch of the survivors. */
  lemma {:induction false} BuryRemoves(events: seq<Item>, dead: seq<bool>, skip: nat, cut: nat)
    requires |dead| == |events| && skip + cut <= |Survivors(events, dead)|
    ensures Survivors(events, Bury(dead, skip, cut)) == Without(Survivors(events, dead), skip, cut)
  {
    if events != [] {
      var tail := dead[1..];
      var rest := Survivors(events[1..], tail);
      assert dead == [dead[0]] + tail;
      HeadSurvives(events, dead[0], tail);
      if dead[0] {
        BuryRemoves(events[1..], tail, skip, cut);
        HeadSurvives(events, true, Bury(tail, skip, cut));
      } else if skip > 0 {
        BuryRemoves(events[1..], tail, skip - 1, cut);
        HeadSurvives(events, false, Bury(tail, skip - 1, cut));
        WithoutAfterFirst(events[0], rest, skip, cut);
      } else if cut > 0 {
        BuryRemoves(events[1..], tail, 0, cut - 1);
        HeadSurvives(events, true, Bury(tail, 0, cut - 1));
        WithoutFirst(events[0], rest, cut);
      } else {
        BuryRemoves(events[1..], tail, 0, 0);
        HeadSurvives(events, false, Bury(tail, 0, 0));
        WithoutNothing(events[0], rest);
      }
    }
  }

  lemma {:induction false} SurvivorsAreTheRest(events: seq<Item>, dead: seq<bool>)
    requires |dead| == |events|
    ensures |Survivors(events, dead)| + Deaths(dead) == |dead|
  {
    if events != [] {
      SurvivorsAreTheRest(events[1..], dead[1..]);
    }
  }

  lemma {:induction false} SurvivorsWithin(events: seq<Item>, dead: seq<bool>)
    requires |dead| == |events|
    ensures Within(Survivors(events, dead), events)
  {
    if events != [] {
      var rest := Survivors(events[1..], dead[1..]);
      SurvivorsWithin(events[1..], dead[1..]);
      assert events == [events[0]] + events[1..];
      if dead[0] {
        WithinBehind(rest, events[1..], events[0]);
        assert Survivors(events, dead) == rest;
      } else {
        WithinBehindSame(rest, events[1..], events[0]);
      }
    }
  }

  /** What is buried is counted. */
  lemma {:induction false} BuryCounts(dead: seq<bool>, skip: nat, cut: nat)
    requires skip + cut + Deaths(dead) <= |dead|
    ensures Deaths(Bury(dead, skip, cut)) == Deaths(dead) + cut
  {
    if dead != [] {
      var tail := dead[1..];
      if dead[0] {
        BuryCounts(tail, skip, cut);
        HeadCounts(true, Bury(tail, skip, cut));
      } else if skip > 0 {
        BuryCounts(tail, skip - 1, cut);
        HeadCounts(false, Bury(tail, skip - 1, cut));
      } else if cut > 0 {
        BuryCounts(tail, 0, cut - 1);
        HeadCounts(true, Bury(tail, 0, cut - 1));
      } else {
        BuryCounts(tail, 0, 0);
        HeadCounts(false, Bury(tail, 0, 0));
      }
    }
  }

  /** The sequence without `cut` elements after the first `skip`. */
  function Without(s: seq<Item>, skip: nat, cut: nat): seq<Item>
    requires skip + cut <= |s|
  {
    s[..skip] + s[skip + cut..]
  }

  lemma WithoutAfterFirst(it: Item, rest: seq<Item>, skip: nat, cut: nat)
    requires 0 < skip && skip + cut <= |rest| + 1
    ensures [it] + Without(rest, skip - 1, cut) == Without([it] + rest, skip, cut)
  {}

  lemma WithoutFirst(it: Item, rest: seq<Item>, cut: nat)
    requires 0 < cut <= |rest| + 1
    ensures Without(rest, 0, cut - 1) == Without([it] + rest, 0, cut)
  {}

  lemma WithoutNothing(it: Item, rest: seq<Item>)
    ensures [it] + Without(rest, 0, 0) == Without([it] + rest, 0, 0)
  {}

  /** One more event, and the `cut` oldest pending ones dropped. */
  lemma AddKeepsBooks(events: seq<Item>, dead: seq<bool>, taken: seq<Item>, pending: seq<Item>, it: Item, cut: nat)
    requires |dead| == |events| && Survivors(events, dead) == taken + pending && cut <= |pending|
    ensures Survivors(events + [it], Bury(dead + [false], |taken|, cut)) == taken + (pending + [it])[cut..]
    ensures Deaths(Bury(dead + [false], |taken|, cut)) == Deaths(dead) + cut
  {
    var all := taken + (pending + [it]);
    SurvivorsAppend(events, dead, it);
    assert Survivors(events + [it], dead + [false]) == all;
    BuryRemoves(events + [it], dead + [false], |taken|, cut);
    SurvivorsAreTheRest(events + [it], dead + [false]);
    assert |all| == |taken| + |pending| + 1;
    BuryCounts(dead + [false], |taken|, cut);
    assert all[..|taken|] == taken && all[|taken| + cut..] == (pending + [it])[cut..];
  }

  /** Every event counts with its length and the two characters around it. */
  lemma AddSize(pending: seq<Item>, it: Item)
    ensures SizeOf(pending + [it]) == SizeOf(pending) + |it.body| + 2
    ensures SizeOf([]) == 0
  {
    assert (pending + [it])[..|pending|] == pending;
  }

  // ---------- the sink ----------

  /** `events` are all events accepted and `dead` marks those dropped since; `sent` are the events handed to the
      connection, as the messages on `wire`, and `flying` the batch taken and not yet handed over. */
  class Sink {
    var pending: seq<Item>
    var size: nat
    var dropped: nat
    ghost var events: seq<Item>
    ghost var dead: seq<bool>
    ghost var sent: seq<Item>
    ghost var flying: seq<Item>
    ghost var wire: seq<Message>

    /** The accepted events without the dropped ones are those sent, in flight and pending, in this order. */
    ghost predicate Valid()
      reads this
    {
      && |dead| == |events| && Survivors(events, dead) == sent + flying + pending
      && size == SizeOf(pending) && |pending| <= MAX_PENDING && dropped == Deaths(dead)
      && AllOnWire(wire, sent)
    }

    constructor ()
      ensures Valid() && events == [] && pending == [] && dropped == 0 && wire == []
    {
      pending, size, dropped := [], 0, 0;
      events, dead, sent, flying, wire := [], [], [], [], [];
    }

    /** An event without a subject is ignored. On overflow the oldest pending events go. Says whether the
        sender should be woken. */
    method Add(subject: string, body: string) returns (full: bool)
      requires Valid()
      modifies this
      ensures Valid() && sent == old(sent) && flying == old(flying) && wire == old(wire)
      ensures subject == "" ==> !full && events == old(events) && dead == old(dead) && pending == old(pending)
      ensures subject != "" ==>
        var cut := if |old(pending)| == 50000 then 1 else 0;
        && events == old(events) + [Item(subject, body)]
        && pending == (old(pending) + [Item(subject, body)])[cut..]
        && dead == Bury(old(dead) + [false], |sent| + |flying|, cut)
        && dropped == old(dropped) + cut
        && full == (|pending| >= 256 || SizeOf(pending) >= 524288)
    {
      if subject == "" {
        return false;
      }
      var it := Item(subject, body);
      ghost var skip, cut := |sent| + |flying|, if |pending| == MAX_PENDING then 1 else 0;
      AddKeepsBooks(events, dead, sent + flying, pending, it, cut);
      AddSize(pending, it);
      events, dead := events + [it], Bury(dead + [false], skip, cut);
      pending := pending + [it];
      size := size + |body| + 2;
      if |pending| > MAX_PENDING {
        dropped := dropped + (|pending| - MAX_PENDING);
        pending := pending[|pending| - MAX_PENDING..];
        size := SizeOfItems(pending);
      }
      full := |pending| >= MAX_ITEMS || size >= MAX_SIZE;
    }

    /** The locked half of one round of flushing. */
    method TakeBatch() returns (batch: seq<Item>)
      requires Valid() && flying == []
      modifies this`pending, this`size, this`flying
      ensures Valid() && flying == batch && batch + pending == old(pending)
      ensures |batch| == if |old(pending)| > 256 then 256 else |old(pending)|
    {
      var n := if |pending| > MAX_ITEMS then MAX_ITEMS else |pending|;
      batch := pending[..n];
      pending := pending[n..];
      size := SizeOfItems(pending);
      flying := batch;
    }

    /** The other half, outside the lock. */
    method PublishBatch(batch: seq<Item>) returns (messages: seq<Message>)
      requires Valid() && batch == flying && batch != []
      modifies this`sent, this`flying, this`wire
      ensures Valid() && flying == [] && sent == old(sent) + batch
      ensures messages == Messages(batch, Subjects(batch)) && wire == old(wire) + messages
      ensures forall m :: m in messages ==> m.items == Only(batch, m.subject) && m.items != []
      ensures forall it :: it in batch ==> exists i :: 0 <= i < |messages| && messages[i].subject == it.subject
      ensures forall i, j :: 0 <= i < j < |messages| ==> messages[i].subject != messages[j].subject
    {
      messages := Publish(batch);
      BatchIsSplit(batch);
      BatchKeepsWire(wire, sent, batch);
      assert sent + batch + [] + pending == sent + flying + pending;
      wire := wire + messages;
      sent := sent + batch;
      flying := [];
    }

    /** Batch after batch until nothing is pending. */
    method Flush()
      requires Valid() && flying == []
      modifies this
      ensures Valid() && flying == [] && pending == [] && sent == old(sent) + old(pending)
      ensures events == old(events) && dead == old(dead) && dropped == old(dropped)
    {
      while |pending| > 0
        invariant Valid() && flying == [] && sent + pending == old(sent) + old(pending)
        invariant events == old(events) && dead == old(dead) && dropped == old(dropped)
      {
        var batch := TakeBatch();
        var _ := PublishBatch(batch);
      }
    }

    /** Every accepted event was sent, is in flight, is pending or was dropped and counted, and the first three are in the
        order in which they were accepted. */
    lemma NothingIsLost()
      requires Valid()
      ensures |sent| + |flying| + |pending| + dropped == |events|
      ensures Within(sent + flying + pending, events)
    {
      SurvivorsAreTheRest(events, dead);
      SurvivorsWithin(events, dead);
    }

    /** For each subject, what is on the wire is the beginning of what was accepted and not dropped, in order; all of
        it once nothing is pending or in flight. */
    lemma WireKeepsOrder(subject: string)
      requires Valid()
      ensures OnWire(wire, subject) + Only(flying, subject) + Only(pending, subject)
           == Only(Survivors(events, dead), subject)
      ensures pending == [] && flying == [] ==> OnWire(wire, subject) == Only(Survivors(events, dead), subject)
    {
      OnlyConcat(sent + flying, pending, subject);
      OnlyConcat(sent, flying, subject);
    }
  }

  method SizeOfItems(items: seq<Item>) returns (n: nat)
    ensures n == SizeOf(items)
  {
    n := 0;
    for i := 0 to |items|
      invariant n == SizeOf(items[..i])
    {
      assert items[..i + 1][..i] == items[..i];
      n := n + |items[i].body| + 2;
    }
    assert items[..|items|] == items;
  }
}
