/** What a client is sent: a zone's answer to its query, less the addresses that zone drops. */
module Delivery {
  import opened Wrappers
  import opened Bytes
  import opened Parser
  import opened Pointers
  import opened Decoder
  import opened Verdict
  import opened QueryWork
  import opened QueryRuns
  import opened Dropping
  import opened AddressesFound

  /** What the client gets of a zone's answer: the bytes themselves, or what is left of them, or nothing. */
  ghost predicate Delivers(zone: Zone, qtype: uint16, data: seq<byte>, reply: Option<seq<byte>>) {
    if !zone.drop.v4 && !zone.drop.v6 then reply == Some(data) else Becomes(data, qtype, zone.drop, reply)
  }

  lemma ReplyDelivers(zone: Zone, qtype: uint16, data: seq<byte>)
    ensures Delivers(zone, qtype, data, Reply(zone, qtype, data))
  {
    hide Becomes, Rewriter.Dropped;
    DroppedBecomes(data, qtype, zone.drop);
  }

  /** What the judge gets of a well-formed answer are the numbers and addresses in its bytes. */
  lemma {:induction false} ReceivedExactly(s: seq<byte>, q: nat)
    requires |s| >= 12 && NameEnd(s, 12) == Some(q) && NamePointer(s, 12).None?
    requires AnswersData(s, q + 4, Number16(s, 6)).Some?
    ensures var r := Received(s);
            && r.data == s && (r.parsed <==> ParsedResponse(s).Some?)
            && (r.parsed ==> && q + 4 <= |s| && r.qtype == Number16(s, q) && r.flags == Number16(s, 2)
                             && Spells(r.found, AnswersData(s, q + 4, Number16(s, 6)).value))
  {
    hide Spells, AnswersData;
    FindsExactly(s, q);
  }

  /** Some event is a query with this ID and of this type. */
  predicate Asked(events: seq<Event>, id: uint16, qtype: uint16) {
    exists e <- events :: e.Query? && |e.data| >= 2 && PacketId(e.data) == id && PacketType(e.data) == qtype
  }

  /** Zone k has answered with these bytes. */
  predicate Told(events: seq<Event>, id: uint16, k: nat, data: seq<byte>) {
    Answer(k, data) in events && data != [] && PacketId(data) == id
  }

  /** The query was asked, and each answer that may become its reply is one its zone gave. */
  ghost predicate Sourced(events: seq<Event>, item: WorkItem, id: uint16) {
    && Asked(events, id, item.qtype)
    && forall k: nat | k < |item.slots| ::
         item.slots[k].state == Match || (k == 0 && item.slots[k].state == NotMatch) ==> Told(events, id, k, item.slots[k].data)
  }

  /** The reply is what becomes of an answer that some zone gave to this query. */
  ghost predicate Earned(zones: seq<Zone>, events: seq<Event>, id: uint16, reply: Option<seq<byte>>) {
    exists k: nat, qtype: uint16, data: seq<byte> :: EarnedBy(zones, events, id, reply, k, qtype, data)
  }

  ghost predicate EarnedBy(zones: seq<Zone>, events: seq<Event>, id: uint16, reply: Option<seq<byte>>, k: nat,
                           qtype: uint16, data: seq<byte>) {
    k < |zones| && Asked(events, id, qtype) && Told(events, id, k, data) && Delivers(zones[k], qtype, data, reply)
  }

  ghost predicate AllSourced(events: seq<Event>, work: Work) {
    forall id <- work :: Sourced(events, work[id], id)
  }

  ghost predicate AllEarned(zones: seq<Zone>, events: seq<Event>, entries: seq<Entry>) {
    forall e <- entries :: e.Ended? && e.finish.reply.Some? ==> Earned(zones, events, e.finish.id, e.finish.reply)
  }

  lemma SourcedLater(events: seq<Event>, more: seq<Event>, item: WorkItem, id: uint16)
    requires Sourced(events, item, id)
    ensures Sourced(events + more, item, id)
  {
    var e :| e in events && e.Query? && |e.data| >= 2 && PacketId(e.data) == id && PacketType(e.data) == item.qtype;
    assert e in events + more;
  }

  lemma EarnedLater(zones: seq<Zone>, events: seq<Event>, more: seq<Event>, id: uint16, reply: Option<seq<byte>>)
    requires Earned(zones, events, id, reply)
    ensures Earned(zones, events + more, id, reply)
  {
    hide Delivers;
    var k, qtype, data :| EarnedBy(zones, events, id, reply, k, qtype, data);
    var e :| e in events && e.Query? && |e.data| >= 2 && PacketId(e.data) == id && PacketType(e.data) == qtype;
    assert e in events + more;
    assert EarnedBy(zones, events + more, id, reply, k, qtype, data);
  }

  /** A query that settles on a zone's answer gives the client what becomes of that. */
  lemma SettledIsEarned(zones: seq<Zone>, events: seq<Event>, item: WorkItem, id: uint16)
    requires item.slots != [] && |item.slots| == |zones| && item.done <= |zones| && Sourced(events, item, id)
    requires Settle(item).Settled? && Settle(item).choice.Some?
    ensures Settle(item).choice.value.0 < |zones|
    ensures Earned(zones, events, id, Chosen(zones, item.qtype, Settle(item).choice))
  {
    hide Delivers, Reply;
    var (k, data) := Settle(item).choice.value;
    ReplyDelivers(zones[k], item.qtype, data);
    assert EarnedBy(zones, events, id, Reply(zones[k], item.qtype, data), k, item.qtype, data);
  }

  lemma StoredIsSourced(events: seq<Event>, item: WorkItem, id: uint16, k: nat, slot: Slot)
    requires k < |item.slots| && Sourced(events, item, id)
    requires slot.state == Error || Told(events, id, k, slot.data)
    ensures Sourced(events, Stored(item, k, slot), id)
  {
  }

  lemma QueryIsSourced(h: History, zones: seq<Zone>, events: seq<Event>, data: seq<byte>, sent: seq<bool>)
    requires Shaped(h.work, |zones|) && |sent| == |zones|
    requires AllSourced(events, h.work) && Query(data, sent) in events
    ensures AllSourced(events, Next(h, zones, Query(data, sent)).work)
  {
    hide PacketType, AfterQuery, Told;
    QueryExactly(h, zones, data, sent);
    var next, id := Next(h, zones, Query(data, sent)).work, PacketId(data);
    if |data| >= 2 {
      assert Asked(events, id, PacketType(data));
      forall i <- next ensures Sourced(events, next[i], i) {
        if i != id {
          assert next[i] == h.work[i];
        }
      }
    }
  }

  lemma DisconnectIsSourced(h: History, zones: seq<Zone>, events: seq<Event>, k: nat)
    requires Shaped(h.work, |zones|) && k < |zones| && AllSourced(events, h.work)
    ensures AllSourced(events, Next(h, zones, Disconnect(k)).work)
  {
    hide Asked, Told, AfterDisconnect;
    var next := Next(h, zones, Disconnect(k)).work;
    forall i <- next ensures Sourced(events, next[i], i) {
      DisconnectExactly(h, zones, k, i);
    }
  }

  lemma AnswerIsSourced(h: History, zones: seq<Zone>, events: seq<Event>, k: nat, data: seq<byte>)
    requires Shaped(h.work, |zones|) && k < |zones| && AllSourced(events, h.work) && Answer(k, data) in events
    requires AllEarned(zones, events, h.entries)
    ensures AllSourced(events, Next(h, zones, Answer(k, data)).work)
    ensures AllEarned(zones, events, Next(h, zones, Answer(k, data)).entries)
  {
    hide Asked, Judge, Earned, Chosen, Received, Sourced, Settle;
    var id := PacketId(data);
    if data != [] && id in h.work {
      hide Next;
      var item := h.work[id];
      var slot := Slot(Judge(zones[k], item.qtype, Received(data)), data);
      var stored := Stored(item, k, slot);
      StoredIsSourced(events, item, id, k, slot);
      ArrivalSettles(h, zones, k, data, id);
      match Settle(stored)
      case Settled(choice) =>
        if choice.Some? {
          SettledIsEarned(zones, events, stored, id);
        } else {
          NoReply(zones, item.qtype, choice);
        }
      case Pending(_) =>
        PendingIsSourced(events, stored, id);
    }
  }

  lemma NoReply(zones: seq<Zone>, qtype: uint16, choice: Choice)
    requires choice.Some? ==> choice.value.0 < |zones|
    ensures choice.None? ==> Chosen(zones, qtype, choice).None?
  {
  }

  lemma PendingIsSourced(events: seq<Event>, item: WorkItem, id: uint16)
    requires item.slots != [] && item.done <= |item.slots| && Sourced(events, item, id) && Settle(item).Pending?
    ensures Sourced(events, Settle(item).item, id)
  {
  }

  /**
   Every reply over every run is what becomes of an answer that a zone gave to that query: less the
   addresses the zone drops, or nothing when they cannot be taken out.
   */
  lemma {:induction false} RepliesAreEarned(zones: seq<Zone>, events: seq<Event>)
    requires zones != [] && AllFit(events, |zones|)
    ensures AllSourced(events, Run(zones, events).work) && AllEarned(zones, events, Run(zones, events).entries)
  {
    hide Sourced, Earned, Next;
    if events != [] {
      var init, e := events[..|events| - 1], events[|events| - 1];
      var h := Run(zones, init);
      assert init + [e] == events;
      RepliesAreEarned(zones, init);
      forall id <- h.work ensures Sourced(events, h.work[id], id) {
        SourcedLater(init, [e], h.work[id], id);
      }
      forall f <- h.entries | f.Ended? && f.finish.reply.Some? ensures Earned(zones, events, f.finish.id, f.finish.reply) {
        EarnedLater(zones, init, [e], f.finish.id, f.finish.reply);
      }
      StepEarns(h, zones, events, e);
    }
  }

  lemma StepEarns(h: History, zones: seq<Zone>, events: seq<Event>, e: Event)
    requires Shaped(h.work, |zones|) && Fits(e, |zones|) && e in events
    requires AllSourced(events, h.work) && AllEarned(zones, events, h.entries)
    ensures AllSourced(events, Next(h, zones, e).work) && AllEarned(zones, events, Next(h, zones, e).entries)
  {
    hide AllSourced, Earned, PacketType, Received;
    match e
    case Query(data, sent) =>
      QueryIsSourced(h, zones, events, data, sent);
    case Disconnect(k) =>
      DisconnectIsSourced(h, zones, events, k);
    case Answer(k, data) =>
      AnswerIsSourced(h, zones, events, k, data);
  }
}
