/**
 One client's transaction: each query goes to every zone that takes part, and the answers that
 come back, in any order, settle on one reply (src/DNSQueryWork.cpp).
 */
module QueryWork {
  import opened Wrappers
  import opened Bytes
  import opened Parser
  import opened Verdict

  /** One zone's answer to one query. */
  datatype Slot = Slot(state: State, data: seq<byte>)

  /** A query under way; no zone before done is still awaited. */
  datatype WorkItem = WorkItem(qtype: uint16, done: nat, slots: seq<Slot>)

  type Work = map<uint16, WorkItem>

  // ----- a query

  /** The first zone from i on that is awaited or matches; the number of zones if none. */
  function Scan(slots: seq<Slot>, i: nat): (j: nat)
    requires i <= |slots|
    ensures i <= j <= |slots|
    ensures forall k :: i <= k < j ==> slots[k].state != Wait && slots[k].state != Match
    ensures j < |slots| ==> slots[j].state == Wait || slots[j].state == Match
    decreases |slots| - i
  {
    if i == |slots| || slots[i].state == Wait || slots[i].state == Match then i else Scan(slots, i + 1)
  }

  /** The zone whose answer is the reply, if any, and that answer. */
  type Choice = Option<(nat, seq<byte>)>

  datatype Outcome = Pending(item: WorkItem) | Settled(choice: Choice)

  /** What DNSQueryResult comes to once the answer is stored. */
  function Settle(item: WorkItem): Outcome
    requires item.slots != [] && item.done <= |item.slots|
  {
    var slots := item.slots;
    var j := Scan(slots, item.done);
    if j == |slots| then Settled(if slots[0].state == NotMatch then Some((0, slots[0].data)) else None)
    else if slots[j].state == Match then Settled(Some((j, slots[j].data)))
    else Pending(item.(done := j))
  }

  function Stored(item: WorkItem, k: nat, slot: Slot): WorkItem
    requires k < |item.slots|
  {
    item.(slots := item.slots[k := slot])
  }

  // ----- the reply the documentation promises

  /** The lowest-index match; else the first zone's answer if it merely does not match; else none. */
  ghost function Promised(slots: seq<Slot>): Choice
    requires slots != []
  {
    if exists i: nat :: IsFirstMatch(slots, i) then
      (var i: nat :| IsFirstMatch(slots, i);
       Some((i, slots[i].data)))
    else if slots[0].state == NotMatch then Some((0, slots[0].data))
    else None
  }

  ghost predicate IsFirstMatch(slots: seq<Slot>, i: nat) {
    i < |slots| && slots[i].state == Match && forall k :: 0 <= k < i ==> slots[k].state != Match
  }

  lemma FirstMatchUnique(slots: seq<Slot>, i: nat, j: nat)
    requires IsFirstMatch(slots, i) && IsFirstMatch(slots, j)
    ensures i == j
  {
  }

  // ----- the cached index

  /** No zone before done is awaited: kept by every step. */
  predicate NoneAwaitedBefore(item: WorkItem) {
    item.done <= |item.slots| && forall k :: 0 <= k < item.done ==> item.slots[k].state != Wait
  }

  /** Nor does one match: kept while zones answer only when awaited. */
  predicate DecidedBefore(item: WorkItem) {
    item.done <= |item.slots| && forall k :: 0 <= k < item.done ==> item.slots[k].state == Error || item.slots[k].state == NotMatch
  }

  lemma {:induction false} ScanSkips(slots: seq<Slot>, i: nat, j: nat)
    requires i <= j <= |slots| && forall k :: i <= k < j ==> slots[k].state != Wait && slots[k].state != Match
    ensures Scan(slots, i) == Scan(slots, j)
    decreases j - i
  {
    if i < j {
      ScanSkips(slots, i + 1, j);
    }
  }

  /** Scanning from the cached index is scanning from the start. */
  lemma {:induction false} CacheIsRescan(item: WorkItem)
    requires DecidedBefore(item)
    ensures Scan(item.slots, item.done) == Scan(item.slots, 0)
  {
    ScanSkips(item.slots, 0, item.done);
  }

  /**
   Exactly when the cached scan misses what a full rescan finds: a zone that was settled before
   the cached index answers once more, and this time matches.
   */
  lemma {:induction false} CacheMissesExactly(item: WorkItem, k: nat, slot: Slot)
    requires DecidedBefore(item) && k < |item.slots| && slot.state != Wait
    ensures var stored := Stored(item, k, slot);
            Scan(stored.slots, item.done) == Scan(stored.slots, 0) <==> !(k < item.done && slot.state == Match)
  {
    var slots := Stored(item, k, slot).slots;
    if k < item.done && slot.state == Match {
      ScanSkips(slots, 0, k);
    } else {
      ScanSkips(slots, 0, item.done);
    }
  }

  lemma {:induction false} StoreKeepsDecided(item: WorkItem, k: nat, slot: Slot)
    requires item.slots != [] && k < |item.slots| && slot.state != Wait
    ensures NoneAwaitedBefore(item) ==>
              NoneAwaitedBefore(Stored(item, k, slot)) &&
              (Settle(Stored(item, k, slot)).Pending? ==>
                 var next := Settle(Stored(item, k, slot)).item;
                 NoneAwaitedBefore(next) && item.done <= next.done < |next.slots| && next.slots[next.done].state == Wait)
    ensures DecidedBefore(item) && item.slots[k].state == Wait ==>
              DecidedBefore(Stored(item, k, slot)) &&
              (Settle(Stored(item, k, slot)).Pending? ==> DecidedBefore(Settle(Stored(item, k, slot)).item))
  {
  }

  /**
   A zone that answers twice, a non-match and then a match, can cost the client its reply: the
   code passes over the match and finds the first zone no longer a non-match.
   */
  lemma {:induction false} RepeatedAnswerLosesReply(a: seq<byte>, b: seq<byte>, c: seq<byte>)
    ensures var item := WorkItem(TYPE_A, 0, [Slot(Wait, []), Slot(Wait, [])]);
            var first := Settle(Stored(item, 0, Slot(NotMatch, a)));
            && first.Pending?
            && var second := Settle(Stored(first.item, 0, Slot(Match, b)));
               && second.Pending?
               && var last := Stored(second.item, 1, Slot(NotMatch, c));
                  Settle(last) == Settled(None) && Promised(last.slots) == Some((0, b))
  {
    var last := [Slot(Match, b), Slot(NotMatch, c)];
    assert IsFirstMatch(last, 0);
    assert forall i: nat :: IsFirstMatch(last, i) ==> i == 0;
    var item := WorkItem(TYPE_A, 0, [Slot(Wait, []), Slot(Wait, [])]);
    assert Stored(item, 0, Slot(NotMatch, a)).slots == [Slot(NotMatch, a), Slot(Wait, [])];
    assert Scan([Slot(NotMatch, a), Slot(Wait, [])], 0) == 1;
    assert [Slot(NotMatch, a), Slot(Wait, [])][0 := Slot(Match, b)] == [Slot(Match, b), Slot(Wait, [])];
    assert [Slot(Match, b), Slot(Wait, [])][1 := Slot(NotMatch, c)] == last;
    assert Scan(last, 1) == 2;
  }

  /** A settled query gives the promised reply exactly when no match lies below the cached index. */
  lemma {:induction false} ReplyIsPromisedExactly(item: WorkItem)
    requires item.slots != [] && NoneAwaitedBefore(item) && Settle(item).Settled?
    ensures Settle(item).choice == Promised(item.slots) <==>
            forall k :: 0 <= k < item.done ==> item.slots[k].state != Match
  {
    var slots := item.slots;
    var first := Scan(slots, 0);
    if first < item.done {
      assert IsFirstMatch(slots, first);
      forall i: nat | IsFirstMatch(slots, i) ensures i == first {
        FirstMatchUnique(slots, i, first);
      }
    } else {
      ScanSkips(slots, 0, item.done);
      SettledAtFirst(slots, first);
    }
  }

  lemma SettledAtFirst(slots: seq<Slot>, j: nat)
    requires slots != [] && j == Scan(slots, 0) && (j < |slots| ==> slots[j].state == Match)
    ensures Promised(slots) ==
            if j < |slots| then Some((j, slots[j].data))
            else if slots[0].state == NotMatch then Some((0, slots[0].data)) else None
  {
    if j < |slots| {
      assert IsFirstMatch(slots, j);
      forall i: nat | IsFirstMatch(slots, i) ensures i == j {
        FirstMatchUnique(slots, i, j);
      }
    }
  }

  // ----- every order of arrival

  /** The zones still awaited. */
  function Awaited(slots: seq<Slot>): set<nat> {
    set k: nat | k < |slots| && slots[k].state == Wait
  }

  /** The slots once every awaited zone has given its answer. */
  function Final(slots: seq<Slot>, answers: seq<Slot>): (r: seq<Slot>)
    requires |answers| == |slots|
    ensures |r| == |slots|
  {
    seq(|slots|, k requires 0 <= k < |slots| => if slots[k].state == Wait then answers[k] else slots[k])
  }

  /** The answers arrive in this order, until the query is settled; what comes later finds no query. */
  function Arrive(item: WorkItem, order: seq<nat>, answers: seq<Slot>): Outcome
    requires item.slots != [] && item.done <= |item.slots| == |answers|
    requires Within(order, |item.slots|)
    decreases |order|
  {
    if order == [] then Pending(item)
    else
      var outcome := Settle(Stored(item, order[0], answers[order[0]]));
      if outcome.Settled? then outcome else Arrive(outcome.item, order[1..], answers)
  }

  function Zones(order: seq<nat>): set<nat> {
    set k | k in order
  }

  predicate Within(order: seq<nat>, n: nat) {
    forall i :: 0 <= i < |order| ==> order[i] < n
  }

  predicate Once(order: seq<nat>) {
    forall i, j :: 0 <= i < j < |order| ==> order[i] != order[j]
  }

  /** The slots below a settling scan are final. */
  lemma SettledIsPromised(item: WorkItem, final: seq<Slot>)
    requires item.slots != [] && DecidedBefore(item) && |final| == |item.slots|
    requires forall k :: 0 <= k < |final| && item.slots[k].state != Wait ==> final[k] == item.slots[k]
    requires Settle(item).Settled?
    ensures Settle(item).choice == Promised(final)
  {
    CacheIsRescan(item);
    var j := Scan(item.slots, 0);
    if j < |final| {
      assert IsFirstMatch(final, j);
      forall i: nat | IsFirstMatch(final, i) ensures i == j {
        FirstMatchUnique(final, i, j);
      }
    } else {
      assert forall i :: 0 <= i < |final| ==> final[i].state != Match;
    }
  }

  lemma {:induction false} ArrivalsSettle(item: WorkItem, order: seq<nat>, answers: seq<Slot>)
    requires item.slots != [] && DecidedBefore(item) && |answers| == |item.slots|
    requires forall k :: 0 <= k < |answers| ==> answers[k].state != Wait
    requires Once(order) && Zones(order) == Awaited(item.slots) && order != []
    ensures Within(order, |item.slots|)
    ensures Arrive(item, order, answers) == Settled(Promised(Final(item.slots, answers)))
    decreases |order|
  {
    AllWithin(item.slots, order);
    var k := order[0];
    assert k in order;
    assert k in Awaited(item.slots);
    var stored := Stored(item, k, answers[k]);
    var final := Final(item.slots, answers);
    StoreKeepsDecided(item, k, answers[k]);
    if Settle(stored).Settled? {
      SettledIsPromised(stored, final);
    } else {
      var next := Settle(stored).item;
      var rest := order[1..];
      assert Final(next.slots, answers) == final;
      AwaitedRest(item.slots, answers[k], order);
      assert next.done in Awaited(next.slots);
      ArrivalsSettle(next, rest, answers);
    }
  }

  lemma AllWithin(slots: seq<Slot>, order: seq<nat>)
    requires Zones(order) == Awaited(slots)
    ensures Within(order, |slots|)
  {
    forall i | 0 <= i < |order| ensures order[i] < |slots| {
      assert order[i] in Zones(order);
      assert order[i] in Awaited(slots);
    }
  }

  lemma AwaitedRest(slots: seq<Slot>, answer: Slot, order: seq<nat>)
    requires order != [] && order[0] < |slots| && answer.state != Wait
    requires Once(order) && Zones(order) == Awaited(slots)
    ensures Zones(order[1..]) == Awaited(slots[order[0] := answer])
    ensures Once(order[1..]) && Within(order[1..], |slots|)
  {
    AllWithin(slots, order);
    var rest, left := order[1..], Awaited(slots[order[0] := answer]);
    forall k | k in Zones(rest) ensures k in left {
      var i :| 0 <= i < |rest| && rest[i] == k;
      assert order[i + 1] == k && k in Zones(order);
      assert k in Awaited(slots);
    }
    forall k | k in left ensures k in Zones(rest) {
      assert k in Awaited(slots) && k in Zones(order);
      var i :| 0 <= i < |order| && order[i] == k;
      assert rest[i - 1] == k;
    }
  }

  // ----- a new query

  /** The slots ServerNewWork creates; sent says which zones' sockets took the query. */
  function NewSlots(zones: seq<Zone>, qtype: uint16, sent: seq<bool>): (r: seq<Slot>)
    requires |sent| == |zones|
    ensures |r| == |zones|
  {
    seq(|zones|, i requires 0 <= i < |zones| =>
      Slot(if i != 0 && !TakesPart(zones[i], qtype) then NotMatch else if !sent[i] then Error else Wait, []))
  }

  /**
   Order independence. If every zone ServerNewWork awaits answers once, then whatever the order
   of arrival the query is settled, and with the same reply: the lowest-index match, else the
   first zone's non-match, else nothing.
   */
  lemma {:induction false} EveryOrderSameReply(zones: seq<Zone>, qtype: uint16, sent: seq<bool>, answers: seq<Slot>,
          order: seq<nat>)
    requires zones != [] && |sent| == |answers| == |zones|
    requires forall k :: 0 <= k < |answers| ==> answers[k].state != Wait
    requires var slots := NewSlots(zones, qtype, sent);
             Once(order) && Zones(order) == Awaited(slots) && Awaited(slots) != {}
    ensures Within(order, |zones|)
    ensures var slots := NewSlots(zones, qtype, sent);
            Arrive(WorkItem(qtype, 0, slots), order, answers) == Settled(Promised(Final(slots, answers)))
  {
    var slots := NewSlots(zones, qtype, sent);
    var k :| k in Awaited(slots);
    assert k in Zones(order);
    ArrivalsSettle(WorkItem(qtype, 0, slots), order, answers);
  }
}
