/**
 Order independence over runs: a query's answers may come in any order, between retransmissions of
 the query and whatever happens to other queries, and the client gets the same reply.
 */
module Interleavings {
  import opened Wrappers
  import opened Bytes
  import opened Parser
  import opened Verdict
  import opened QueryWork
  import opened QueryRuns
  import opened Delivery

  /** A run that goes on from h. */
  function RunOn(h: History, zones: seq<Zone>, events: seq<Event>): (r: History)
    requires Shaped(h.work, |zones|) && AllFit(events, |zones|)
    ensures Shaped(r.work, |zones|)
    decreases |events|
  {
    if events == [] then h else RunOn(Next(h, zones, events[0]), zones, events[1..])
  }

  lemma {:induction false} RunGoesOn(zones: seq<Zone>, before: seq<Event>, events: seq<Event>)
    requires AllFit(before, |zones|) && AllFit(events, |zones|)
    ensures AllFit(before + events, |zones|)
    ensures Run(zones, before + events) == RunOn(Run(zones, before), zones, events)
    decreases |events|
  {
    hide Next, Fits, Shaped;
    if events == [] {
      assert before + events == before;
    } else {
      var first := before + [events[0]];
      assert first[..|first| - 1] == before && first[|first| - 1] == events[0];
      RunGoesOn(zones, first, events[1..]);
      assert first + events[1..] == before + events;
    }
  }

  // ----- one query among others

  /** The event can change the query with this ID. */
  predicate Concerns(e: Event, id: uint16) {
    match e
    case Query(data, _) => |data| >= 2 && PacketId(data) == id
    case Answer(_, data) => data != [] && PacketId(data) == id
    case Disconnect(_) => true
  }

  /** Such events, but for the packets of the query itself. */
  function Relevant(events: seq<Event>, id: uint16): seq<Event> {
    if events == [] then []
    else (if Concerns(events[0], id) && !events[0].Query? then [events[0]] else []) + Relevant(events[1..], id)
  }

  /** Every zone still awaited takes the query. */
  predicate Taken(item: WorkItem, sent: seq<bool>) {
    forall k :: 0 <= k < |item.slots| && k < |sent| && item.slots[k].state == Wait ==> sent[k]
  }

  /** While the query is under way it may be sent again, its zones taking it; once it has ended it is not. */
  predicate Retransmits(h: History, zones: seq<Zone>, events: seq<Event>, id: uint16)
    requires Shaped(h.work, |zones|) && AllFit(events, |zones|)
    decreases |events|
  {
    events == [] ||
    (&& (events[0].Query? && Concerns(events[0], id) ==> id in h.work && Taken(h.work[id], events[0].sent))
     && Retransmits(Next(h, zones, events[0]), zones, events[1..], id))
  }

  /** What the log says of the queries with this ID. */
  function LogOf(entries: seq<Entry>, id: uint16): seq<Entry> {
    if entries == [] then []
    else
      var last := entries[|entries| - 1];
      LogOf(entries[..|entries| - 1], id) + if (if last.Began? then last.id else last.finish.id) == id then [last] else []
  }

  lemma LogOfOneMore(entries: seq<Entry>, e: Entry, id: uint16)
    ensures LogOf(entries + [e], id) == LogOf(entries, id) + if (if e.Began? then e.id else e.finish.id) == id then [e] else []
  {
    assert (entries + [e])[..|entries|] == entries;
  }

  /** The query with this ID stands as it did, and so does what the log says of it. */
  ghost predicate SameFor(h: History, next: History, id: uint16) {
    && (id in next.work <==> id in h.work) && (id in h.work ==> next.work[id] == h.work[id])
    && LogOf(next.entries, id) == LogOf(h.entries, id)
  }

  lemma RepeatedChangesNothing(item: WorkItem, next: WorkItem, sent: seq<bool>)
    requires |sent| == |item.slots| && Repeats(item, next, sent) && Taken(item, sent)
    ensures next == item
  {
    assert forall k :: 0 <= k < |item.slots| ==> next.slots[k] == item.slots[k];
    assert next.slots == item.slots;
  }

  lemma RetransmissionLeavesIt(h: History, zones: seq<Zone>, e: Event, id: uint16)
    requires Shaped(h.work, |zones|) && Fits(e, |zones|) && e.Query? && Concerns(e, id)
    requires id in h.work && Taken(h.work[id], e.sent)
    ensures SameFor(h, Next(h, zones, e), id)
  {
    hide AfterQuery, Repeats, Taken, PacketType;
    QueryExactly(h, zones, e.data, e.sent);
    RepeatedChangesNothing(h.work[id], Next(h, zones, e).work[id], e.sent);
  }

  lemma OthersLeaveIt(h: History, zones: seq<Zone>, e: Event, id: uint16)
    requires Shaped(h.work, |zones|) && Fits(e, |zones|) && !Concerns(e, id)
    ensures SameFor(h, Next(h, zones, e), id)
  {
    var next := Next(h, zones, e);
    if next.entries != h.entries {
      LogOfOneMore(h.entries, next.entries[|h.entries|], id);
    }
  }

  // ----- its answers

  /** Zone order[0] answers first, with its datagram, and so on. */
  function Arrivals(order: seq<nat>, datas: seq<seq<byte>>): seq<Event>
    requires Within(order, |datas|)
  {
    if order == [] then [] else [Answer(order[0], datas[order[0]])] + Arrivals(order[1..], datas)
  }

  /** What each zone's datagram is worth to a query of this type. */
  function Verdicts(zones: seq<Zone>, qtype: uint16, datas: seq<seq<byte>>): (r: seq<Slot>)
    requires |datas| == |zones|
    ensures |r| == |zones| && forall k :: 0 <= k < |r| ==> r[k].state != Wait
  {
    seq(|zones|, k requires 0 <= k < |zones| => Slot(Judge(zones[k], qtype, Received(datas[k])), datas[k]))
  }

  ghost predicate AllAnswer(order: seq<nat>, datas: seq<seq<byte>>, id: uint16) {
    Within(order, |datas|) && forall i :: 0 <= i < |order| ==> Answers(datas[order[i]], id)
  }

  lemma FirstRelevant(events: seq<Event>, id: uint16, order: seq<nat>, datas: seq<seq<byte>>)
    requires events != [] && Concerns(events[0], id) && !events[0].Query?
    requires Within(order, |datas|) && Relevant(events, id) == Arrivals(order, datas)
    ensures order != [] && events[0] == Answer(order[0], datas[order[0]])
    ensures Within(order[1..], |datas|) && Relevant(events[1..], id) == Arrivals(order[1..], datas)
  {
    assert events[0] == Relevant(events, id)[0] && Relevant(events[1..], id) == Relevant(events, id)[1..];
    assert order != [] && Arrivals(order, datas)[1..] == Arrivals(order[1..], datas);
  }

  lemma NotRelevant(events: seq<Event>, id: uint16)
    requires events != [] && (!Concerns(events[0], id) || events[0].Query?)
    ensures Relevant(events[1..], id) == Relevant(events, id)
  {
  }

  /** Answers that find no query with their ID change nothing about it. */
  lemma {:induction false} LateAnswers(h: History, zones: seq<Zone>, events: seq<Event>, id: uint16, order: seq<nat>,
                                       datas: seq<seq<byte>>)
    requires Shaped(h.work, |zones|) && AllFit(events, |zones|) && id !in h.work
    requires Within(order, |datas|) && Relevant(events, id) == Arrivals(order, datas)
    requires Retransmits(h, zones, events, id)
    ensures SameFor(h, RunOn(h, zones, events), id)
    decreases |events|
  {
    if events != [] {
      var next := Next(h, zones, events[0]);
      if Concerns(events[0], id) {
        assert !events[0].Query?;
        FirstRelevant(events, id, order, datas);
        assert next == h;
        LateAnswers(h, zones, events[1..], id, order[1..], datas);
      } else {
        OthersLeaveIt(h, zones, events[0], id);
        NotRelevant(events, id);
        LateAnswers(next, zones, events[1..], id, order, datas);
      }
    }
  }

  /** What the run has made of the query, when its answers arriving in this order come to this outcome. */
  ghost predicate CameTo(h: History, r: History, zones: seq<Zone>, id: uint16, qtype: uint16, outcome: Outcome) {
    match outcome
    case Pending(item) => id in r.work && r.work[id] == item && LogOf(r.entries, id) == LogOf(h.entries, id)
    case Settled(choice) =>
      && id !in r.work && (choice.Some? ==> choice.value.0 < |zones|)
      && LogOf(r.entries, id) == LogOf(h.entries, id) + [Ended(Finish(id, Chosen(zones, qtype, choice)))]
  }

  lemma CameToLater(h: History, next: History, r: History, zones: seq<Zone>, id: uint16, qtype: uint16, outcome: Outcome)
    requires LogOf(next.entries, id) == LogOf(h.entries, id) && CameTo(next, r, zones, id, qtype, outcome)
    ensures CameTo(h, r, zones, id, qtype, outcome)
  {
  }

  lemma SettledStays(h: History, next: History, r: History, zones: seq<Zone>, id: uint16, qtype: uint16, choice: Choice)
    requires id !in next.work && SameFor(next, r, id) && (choice.Some? ==> choice.value.0 < |zones|)
    requires next.entries == h.entries + [Ended(Finish(id, Chosen(zones, qtype, choice)))]
    ensures CameTo(h, r, zones, id, qtype, Settled(choice))
  {
    LogOfOneMore(h.entries, Ended(Finish(id, Chosen(zones, qtype, choice))), id);
  }

  lemma KeepsItem(h: History, next: History, id: uint16)
    requires SameFor(h, next, id) && id in h.work
    ensures id in next.work && next.work[id] == h.work[id] && LogOf(next.entries, id) == LogOf(h.entries, id)
  {
  }

  lemma NothingArrives(order: seq<nat>, datas: seq<seq<byte>>)
    requires Within(order, |datas|) && Arrivals(order, datas) == []
    ensures order == []
  {
  }

  /** Among any events about other queries, a query's answers come to what they come to alone. */
  lemma {:induction false} ComesToArrive(h: History, zones: seq<Zone>, events: seq<Event>, id: uint16, order: seq<nat>,
                                         datas: seq<seq<byte>>)
    requires zones != [] && Shaped(h.work, |zones|) && AllFit(events, |zones|) && id in h.work && |datas| == |zones|
    requires AllAnswer(order, datas, id) && Relevant(events, id) == Arrivals(order, datas)
    requires Retransmits(h, zones, events, id)
    ensures var item := h.work[id];
            CameTo(h, RunOn(h, zones, events), zones, id, item.qtype, Arrive(item, order, Verdicts(zones, item.qtype, datas)))
    decreases |events|
  {
    if events != [] {
      hide Next, Settle, Judge, Received, Chosen, Fits, CameTo, SameFor, LogOf, Relevant;
      var item, next, rest := h.work[id], Next(h, zones, events[0]), events[1..];
      var qtype, answers := item.qtype, Verdicts(zones, item.qtype, datas);
      var r := RunOn(next, zones, rest);
      if Concerns(events[0], id) && !events[0].Query? {
        FirstRelevant(events, id, order, datas);
        ArrivalSettles(h, zones, order[0], datas[order[0]], id);
        var outcome := Settle(Stored(item, order[0], answers[order[0]]));
        if outcome.Settled? {
          LateAnswers(next, zones, rest, id, order[1..], datas);
          SettledStays(h, next, r, zones, id, qtype, outcome.choice);
        } else {
          ComesToArrive(next, zones, rest, id, order[1..], datas);
          CameToLater(h, next, r, zones, id, qtype, Arrive(outcome.item, order[1..], answers));
        }
      } else {
        if events[0].Query? && Concerns(events[0], id) {
          RetransmissionLeavesIt(h, zones, events[0], id);
        } else {
          OthersLeaveIt(h, zones, events[0], id);
        }
        NotRelevant(events, id);
        KeepsItem(h, next, id);
        ComesToArrive(next, zones, rest, id, order, datas);
        CameToLater(h, next, r, zones, id, qtype, Arrive(item, order, answers));
      }
    } else {
      NothingArrives(order, datas);
    }
  }

  /**
   Order independence over runs. After any run, let a query come in and every zone it is sent to answer
   it once, in any order, between retransmissions of the query and any events about other queries.
   It then has begun once and ended once, and nothing is left of it. The reply is what becomes of the
   answer the documentation promises, at the zone that gave it.
   */
  lemma {:induction false} EveryRunSameReply(zones: seq<Zone>, before: seq<Event>, data: seq<byte>, sent: seq<bool>,
                                             events: seq<Event>, order: seq<nat>, datas: seq<seq<byte>>)
    returns (reply: Option<seq<byte>>)
    requires zones != [] && |sent| == |datas| == |zones| && |data| >= 2
    requires AllFit(before, |zones|) && AllFit(events, |zones|) && PacketId(data) !in Run(zones, before).work
    requires var slots := NewSlots(zones, PacketType(data), sent);
             Once(order) && Zones(order) == Awaited(slots) && Awaited(slots) != {}
    requires AllAnswer(order, datas, PacketId(data)) && Relevant(events, PacketId(data)) == Arrivals(order, datas)
    requires Retransmits(Next(Run(zones, before), zones, Query(data, sent)), zones, events, PacketId(data))
    ensures AllFit(before + [Query(data, sent)] + events, |zones|)
    ensures var id := PacketId(data);
            var h, r := Run(zones, before), Run(zones, before + [Query(data, sent)] + events);
            && id !in r.work
            && LogOf(r.entries, id) == LogOf(h.entries, id) + [Began(id), Ended(Finish(id, reply))]
    ensures var qtype := PacketType(data);
            match Promised(Final(NewSlots(zones, qtype, sent), Verdicts(zones, qtype, datas)))
            case None => reply == None
            case Some((k, answer)) => k < |zones| && Delivers(zones[k], qtype, answer, reply)
  {
    hide Run, Promised, Final, Arrive, Verdicts, Zones, Awaited, Once, Delivers, Relevant, Retransmits;
    var id, qtype := PacketId(data), PacketType(data);
    var h, asked := Run(zones, before), before + [Query(data, sent)];
    var slots, answers := NewSlots(zones, qtype, sent), Verdicts(zones, qtype, datas);
    var choice := Promised(Final(slots, answers));
    RunGoesOn(zones, before, [Query(data, sent)]);
    var next := Next(h, zones, Query(data, sent));
    assert Run(zones, asked) == next;
    LogOfOneMore(h.entries, Began(id), id);
    RunGoesOn(zones, asked, events);
    ComesToArrive(next, zones, events, id, order, datas);
    EveryOrderSameReply(zones, qtype, sent, answers, order);
    reply := Chosen(zones, qtype, choice);
    if choice.Some? {
      ReplyDelivers(zones[choice.value.0], qtype, choice.value.1);
    }
    assert LogOf(h.entries, id) + [Began(id)] + [Ended(Finish(id, reply))]
        == LogOf(h.entries, id) + [Began(id), Ended(Finish(id, reply))];
  }
}
