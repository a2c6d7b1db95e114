/**
 The queries of one client over a whole run: what each event does to the table of queries under
 way and to the log of what began and ended (src/DNSQueryWork.cpp).
 */
module QueryRuns {
  import opened Wrappers
  import opened Bytes
  import opened Parser
  import opened Rewriter
  import opened Agreement
  import opened Verdict
  import opened QueryWork

  /** A query that ended, with the bytes handed to the client, if any. */
  datatype Finish = Finish(id: uint16, reply: Option<seq<byte>>)

  // ----- the steps

  /** An upstream datagram as its connection reads it; nothing is known of one that does not parse. */
  function Received(data: seq<byte>): Upstream {
    match ParsedResponse(data)
    case None => Upstream(false, 0, 0, NO_ADDRESS, data)
    case Some(r) => Upstream(true, r.question.qtype, r.question.flags, r.addresses, data)
  }

  /** The query sent once more to the zones still awaited; one whose socket refuses it is given up. */
  function Resent(item: WorkItem, sent: seq<bool>): (r: WorkItem)
    requires |sent| == |item.slots|
    ensures |r.slots| == |item.slots|
  {
    item.(slots := seq(|sent|, i requires 0 <= i < |sent| =>
      if item.slots[i].state == Wait && !sent[i] then item.slots[i].(state := Error) else item.slots[i]))
  }

  /** Every query has one slot for each zone. */
  predicate Shaped(work: Work, n: nat) {
    forall id <- work :: |work[id].slots| == n && work[id].done <= n
  }

  function AfterQuery(work: Work, zones: seq<Zone>, id: uint16, qtype: uint16, data: seq<byte>,
          sent: seq<bool>): (r: Work)
    requires |sent| == |zones| && Shaped(work, |zones|)
    ensures Shaped(r, |zones|)
  {
    if |data| < 2 then work
    else if id in work then work[id := Resent(work[id], sent)]
    else work[id := WorkItem(qtype, 0, NewSlots(zones, qtype, sent))]
  }

  function GivenUp(item: WorkItem, k: nat): WorkItem
    requires k < |item.slots|
  {
    if item.slots[k].state == Wait then item.(slots := item.slots[k := item.slots[k].(state := Error)]) else item
  }

  /** A zone's socket reports an error: no query awaits that zone any more. None is settled by this. */
  function AfterDisconnect(work: Work, n: nat, k: nat): (r: Work)
    requires Shaped(work, n) && k < n
    ensures Shaped(r, n)
  {
    map id | id in work :: GivenUp(work[id], k)
  }

  /** The bytes a zone's answer becomes: rewritten if the zone drops addresses, none if that fails. */
  function Reply(zone: Zone, qtype: uint16, data: seq<byte>): Option<seq<byte>> {
    if !zone.drop.v4 && !zone.drop.v6 then Some(data) else Dropped(data, qtype, zone.drop)
  }

  function Chosen(zones: seq<Zone>, qtype: uint16, choice: Choice): Option<seq<byte>>
    requires choice.Some? ==> choice.value.0 < |zones|
  {
    match choice
    case None => None
    case Some((i, data)) => Reply(zones[i], qtype, data)
  }

  function AfterAnswer(work: Work, zones: seq<Zone>, k: nat, id: uint16, r: Upstream): (next: (Work, Option<Finish>))
    requires Shaped(work, |zones|) && k < |zones|
    ensures Shaped(next.0, |zones|)
    ensures next.1.Some? ==> next.1.value.id == id && id in work && id !in next.0
  {
    if id !in work then (work, None)
    else
      var item := work[id];
      match Settle(Stored(item, k, Slot(Judge(zones[k], item.qtype, r), r.data)))
      case Pending(next) => (work[id := next], None)
      case Settled(choice) => (work - {id}, Some(Finish(id, Chosen(zones, item.qtype, choice))))
  }

  // ----- runs

  /** What can happen to a client's transaction; sent says which zones' sockets take the query. */
  datatype Event = Query(data: seq<byte>, sent: seq<bool>) | Answer(k: nat, data: seq<byte>) | Disconnect(k: nat)

  datatype Entry = Began(id: uint16) | Ended(finish: Finish)

  datatype History = History(work: Work, entries: seq<Entry>)

  predicate Fits(e: Event, n: nat) {
    match e
    case Query(_, sent) => |sent| == n
    case Answer(k, _) => k < n
    case Disconnect(k) => k < n
  }

  predicate AllFit(events: seq<Event>, n: nat) {
    forall i :: 0 <= i < |events| ==> Fits(events[i], n)
  }

  function Next(h: History, zones: seq<Zone>, e: Event): (r: History)
    requires Shaped(h.work, |zones|) && Fits(e, |zones|)
    ensures Shaped(r.work, |zones|)
  {
    match e
    case Query(data, sent) =>
      var id := PacketId(data);
      History(AfterQuery(h.work, zones, id, PacketType(data), data, sent),
              if |data| < 2 || id in h.work then h.entries else h.entries + [Began(id)])
    case Disconnect(k) => h.(work := AfterDisconnect(h.work, |zones|, k))
    case Answer(k, data) =>
      if data == [] then h
      else
        var (work, finish) := AfterAnswer(h.work, zones, k, PacketId(data), Received(data));
        History(work, if finish.None? then h.entries else h.entries + [Ended(finish.value)])
  }

  function Run(zones: seq<Zone>, events: seq<Event>): (r: History)
    requires AllFit(events, |zones|)
    ensures Shaped(r.work, |zones|)
  {
    if events == [] then History(map[], [])
    else Next(Run(zones, events[..|events| - 1]), zones, events[|events| - 1])
  }

  // ----- what every run keeps

  function CountBegan(entries: seq<Entry>, id: uint16): nat {
    if entries == [] then 0
    else CountBegan(entries[..|entries| - 1], id) + if entries[|entries| - 1] == Began(id) then 1 else 0
  }

  function CountEnded(entries: seq<Entry>, id: uint16): nat {
    if entries == [] then 0
    else
      var last := entries[|entries| - 1];
      CountEnded(entries[..|entries| - 1], id) + if last.Ended? && last.finish.id == id then 1 else 0
  }

  ghost predicate Balanced(h: History) {
    forall id: uint16 :: CountBegan(h.entries, id) == CountEnded(h.entries, id) + if id in h.work then 1 else 0
  }

  /** The bytes a slot may hand to the client answer the query with this ID. */
  predicate Answers(data: seq<byte>, id: uint16) {
    data != [] && PacketId(data) == id
  }

  /** What is kept of each query under way, whatever the zones do. */
  ghost predicate Sound(item: WorkItem, id: uint16) {
    && NoneAwaitedBefore(item)
    && (forall k :: 0 <= k < |item.slots| && item.slots[k].state == Match ==> Answers(item.slots[k].data, id))
    && (item.slots != [] && item.slots[0].state == NotMatch ==> Answers(item.slots[0].data, id))
  }

  predicate Safe(e: Entry) {
    e.Ended? && e.finish.reply.Some? ==> Answers(e.finish.reply.value, e.finish.id)
  }

  ghost predicate Kept(h: History) {
    && Balanced(h)
    && AllSound(h.work)
    && (forall i :: 0 <= i < |h.entries| ==> Safe(h.entries[i]))
  }

  lemma OneMoreEntry(entries: seq<Entry>, e: Entry, id: uint16)
    ensures CountBegan(entries + [e], id) == CountBegan(entries, id) + if e == Began(id) then 1 else 0
    ensures CountEnded(entries + [e], id) == CountEnded(entries, id) + if e.Ended? && e.finish.id == id then 1 else 0
  {
    assert (entries + [e])[..|entries|] == entries;
  }

  /** A settled choice is an answer to the query, and stays one when addresses are dropped from it. */
  lemma {:induction false} ChosenAnswers(zones: seq<Zone>, item: WorkItem, id: uint16)
    requires item.slots != [] && |item.slots| == |zones| && Sound(item, id) && Settle(item).Settled?
    ensures var reply := Chosen(zones, item.qtype, Settle(item).choice);
            reply.Some? ==> Answers(reply.value, id)
  {
    match Settle(item).choice
    case None =>
    case Some((i, data)) =>
      assert Answers(data, id);
      if Dropped(data, item.qtype, zones[i].drop).Some? {
        DropKeepsId(data, item.qtype, zones[i].drop);
      }
  }

  lemma SentIsSound(item: WorkItem, zones: seq<Zone>, id: uint16, qtype: uint16, sent: seq<bool>)
    requires |sent| == |zones|
    ensures Sound(WorkItem(qtype, 0, NewSlots(zones, qtype, sent)), id)
    ensures |item.slots| == |zones| && Sound(item, id) ==> Sound(Resent(item, sent), id)
  {
  }

  lemma StoredIsSound(item: WorkItem, zone: Zone, k: nat, id: uint16, r: Upstream)
    requires k < |item.slots| && Sound(item, id) && Answers(r.data, id)
    ensures var stored := Stored(item, k, Slot(Judge(zone, item.qtype, r), r.data));
            Sound(stored, id) && (Settle(stored).Pending? ==> Sound(Settle(stored).item, id))
  {
    StoreKeepsDecided(item, k, Slot(Judge(zone, item.qtype, r), r.data));
  }

  ghost predicate AllSound(work: Work) {
    forall id <- work :: Sound(work[id], id)
  }

  lemma QueryIsSound(work: Work, zones: seq<Zone>, id: uint16, qtype: uint16, data: seq<byte>, sent: seq<bool>)
    requires Shaped(work, |zones|) && |sent| == |zones| && AllSound(work)
    ensures AllSound(AfterQuery(work, zones, id, qtype, data, sent))
  {
    if id in work {
      SentIsSound(work[id], zones, id, qtype, sent);
    } else {
      SentIsSound(WorkItem(0, 0, []), zones, id, qtype, sent);
    }
  }

  lemma AnswerIsSound(work: Work, zones: seq<Zone>, k: nat, data: seq<byte>)
    requires Shaped(work, |zones|) && k < |zones| && data != [] && AllSound(work)
    ensures var (next, finish) := AfterAnswer(work, zones, k, PacketId(data), Received(data));
            AllSound(next) && (finish.Some? ==> Safe(Ended(finish.value)))
  {
    var id := PacketId(data);
    if id in work {
      var item := work[id];
      var r := Received(data);
      StoredIsSound(item, zones[k], k, id, r);
      var stored := Stored(item, k, Slot(Judge(zones[k], item.qtype, r), data));
      if Settle(stored).Settled? {
        ChosenAnswers(zones, stored, id);
      }
    }
  }

  lemma DisconnectIsSound(work: Work, n: nat, k: nat)
    requires Shaped(work, n) && k < n && AllSound(work)
    ensures AllSound(AfterDisconnect(work, n, k))
  {
    assert forall id <- work :: Sound(work[id], id) ==> Sound(GivenUp(work[id], k), id);
  }

  lemma OneMoreBalances(h: History, next: History, e: Entry)
    requires Balanced(h) && next.entries == h.entries + [e]
    requires e.Began? ==> e.id !in h.work && next.work.Keys == h.work.Keys + {e.id}
    requires e.Ended? ==> e.finish.id in h.work && next.work.Keys == h.work.Keys - {e.finish.id}
    ensures Balanced(next)
  {
    forall i: uint16
      ensures CountBegan(next.entries, i) == CountEnded(next.entries, i) + if i in next.work then 1 else 0
    {
      OneMoreEntry(h.entries, e, i);
      assert i in next.work <==> i in next.work.Keys;
    }
  }

  lemma StepBalances(h: History, zones: seq<Zone>, e: Event)
    requires Shaped(h.work, |zones|) && Fits(e, |zones|) && Balanced(h)
    ensures Balanced(Next(h, zones, e))
  {
    var next := Next(h, zones, e);
    if next.entries != h.entries {
      OneMoreBalances(h, next, next.entries[|h.entries|]);
    } else {
      assert next.work.Keys == h.work.Keys;
    }
  }

  lemma StepKeeps(h: History, zones: seq<Zone>, e: Event)
    requires Shaped(h.work, |zones|) && Fits(e, |zones|) && Kept(h)
    ensures Kept(Next(h, zones, e))
  {
    StepBalances(h, zones, e);
    match e
    case Query(data, sent) => QueryIsSound(h.work, zones, PacketId(data), PacketType(data), data, sent);
    case Disconnect(k) => DisconnectIsSound(h.work, |zones|, k);
    case Answer(k, data) =>
      if data != [] {
        AnswerIsSound(h.work, zones, k, data);
      }
  }

  lemma {:induction false} EveryRunKeeps(zones: seq<Zone>, events: seq<Event>)
    requires AllFit(events, |zones|)
    ensures Kept(Run(zones, events))
  {
    if events != [] {
      var h := Run(zones, events[..|events| - 1]);
      EveryRunKeeps(zones, events[..|events| - 1]);
      StepKeeps(h, zones, events[|events| - 1]);
    }
  }

  /**
   Reply safety over every run: each query that ended had begun, one at a time, and gave the client
   at most one reply; every query begun has ended or is still under way; no reply is empty, and each
   carries the ID of its query, even rewritten.
   */
  lemma {:induction false} RepliesAreSafe(zones: seq<Zone>, events: seq<Event>, id: uint16)
    requires AllFit(events, |zones|)
    ensures var h := Run(zones, events);
            && CountBegan(h.entries, id) == CountEnded(h.entries, id) + (if id in h.work then 1 else 0)
            && forall e <- h.entries :: e.Ended? && e.finish.reply.Some? ==>
                 e.finish.reply.value != [] && PacketId(e.finish.reply.value) == e.finish.id
  {
    EveryRunKeeps(zones, events);
  }

  // ----- what one step cannot undo

  /** From item to next, nothing decided is undone. */
  ghost predicate Advances(item: WorkItem, next: WorkItem) {
    && next.qtype == item.qtype && |next.slots| == |item.slots| && item.done <= next.done
    && forall k :: 0 <= k < |item.slots| && item.slots[k].state != Wait ==> next.slots[k].state != Wait
  }

  /** In any step of any run the cached index never falls and no slot is awaited again. */
  lemma {:induction false} StepAdvances(h: History, zones: seq<Zone>, e: Event, id: uint16)
    requires Shaped(h.work, |zones|) && Fits(e, |zones|)
    requires id in h.work && id in Next(h, zones, e).work
    ensures Advances(h.work[id], Next(h, zones, e).work[id])
  {
  }

  /**
   A new query: the first zone is asked, and the others but those without a list of the family an A (1)
   or AAAA (28) query is about; asked zones are awaited as far as their sockets take the query.
   */
  predicate Begins(item: WorkItem, zones: seq<Zone>, qtype: uint16, sent: seq<bool>)
    requires |sent| == |zones|
  {
    && item.qtype == qtype && item.done == 0 && |item.slots| == |zones|
    && forall k :: 0 <= k < |zones| ==>
         var asked := k == 0 || ((qtype == 1 ==> zones[k].hasV4) && (qtype == 28 ==> zones[k].hasV6));
         && item.slots[k].data == []
         && (item.slots[k].state == Wait <==> asked && sent[k])
         && (item.slots[k].state == Error <==> asked && !sent[k])
         && (item.slots[k].state == NotMatch <==> !asked)
  }

  /** The query sent again: an awaited zone whose socket refuses it is given up, all else stays. */
  predicate Repeats(item: WorkItem, next: WorkItem, sent: seq<bool>)
    requires |sent| == |item.slots|
  {
    && next.qtype == item.qtype && next.done == item.done && |next.slots| == |item.slots|
    && forall k :: 0 <= k < |item.slots| ==>
         && next.slots[k].data == item.slots[k].data
         && (item.slots[k].state != Wait ==> next.slots[k].state == item.slots[k].state)
         && (item.slots[k].state == Wait ==> next.slots[k].state == if sent[k] then Wait else Error)
  }

  /** A packet with an ID begins that query or repeats it, and touches no other. */
  lemma {:induction false} QueryExactly(h: History, zones: seq<Zone>, data: seq<byte>, sent: seq<bool>)
    requires Shaped(h.work, |zones|) && |sent| == |zones|
    ensures var next, id := Next(h, zones, Query(data, sent)), PacketId(data);
            if |data| < 2 then next == h
            else
              && next.work.Keys == h.work.Keys + {id} && (forall i <- h.work :: i != id ==> next.work[i] == h.work[i])
              && if id in h.work then next.entries == h.entries && Repeats(h.work[id], next.work[id], sent)
                 else next.entries == h.entries + [Began(id)] && Begins(next.work[id], zones, PacketType(data), sent)
  {
    hide PacketType;
  }

  /** An answer is stored, and either leaves the query waiting or settles it. */
  lemma ArrivalSettles(h: History, zones: seq<Zone>, k: nat, data: seq<byte>, id: uint16)
    requires Shaped(h.work, |zones|) && k < |zones| && zones != [] && id in h.work && Answers(data, id)
    ensures var item := h.work[id];
            var slot := Slot(Judge(zones[k], item.qtype, Received(data)), data);
            var next := Next(h, zones, Event.Answer(k, data));
            match Settle(Stored(item, k, slot))
            case Pending(waiting) => next.work == h.work[id := waiting] && next.entries == h.entries
            case Settled(choice) =>
              && next.work == h.work - {id}
              && next.entries == h.entries + [Ended(Finish(id, Chosen(zones, item.qtype, choice)))]
  {
  }

  /** A zone that fails is given up by every query that awaits it, and nothing else changes. */
  lemma {:induction false} DisconnectExactly(h: History, zones: seq<Zone>, k: nat, id: uint16)
    requires Shaped(h.work, |zones|) && k < |zones|
    ensures var next := Next(h, zones, Disconnect(k));
            && next.entries == h.entries && next.work.Keys == h.work.Keys
            && (id in h.work ==>
                  var item, after := h.work[id], next.work[id];
                  && after.qtype == item.qtype && after.done == item.done && |after.slots| == |item.slots|
                  && (forall j :: 0 <= j < |item.slots| && j != k ==> after.slots[j] == item.slots[j])
                  && after.slots[k].data == item.slots[k].data
                  && after.slots[k].state == if item.slots[k].state == Wait then Error else item.slots[k].state)
  {
  }

  // ----- zones that answer only when awaited

  /** A zone answers a query only while the query awaits it. */
  predicate AnswersAwaited(work: Work, e: Event) {
    e.Answer? && PacketId(e.data) in work && e.k < |work[PacketId(e.data)].slots| ==>
      work[PacketId(e.data)].slots[e.k].state == Wait
  }

  ghost predicate Guarded(zones: seq<Zone>, events: seq<Event>)
    requires AllFit(events, |zones|)
  {
    events == [] ||
    (Guarded(zones, events[..|events| - 1]) &&
     AnswersAwaited(Run(zones, events[..|events| - 1]).work, events[|events| - 1]))
  }

  lemma GuardedStep(h: History, zones: seq<Zone>, e: Event, id: uint16)
    requires Shaped(h.work, |zones|) && Fits(e, |zones|) && AnswersAwaited(h.work, e)
    requires forall i <- h.work :: DecidedBefore(h.work[i])
    requires id in Next(h, zones, e).work
    ensures DecidedBefore(Next(h, zones, e).work[id])
  {
    if e.Answer? && e.data != [] && id == PacketId(e.data) && id in h.work {
      var item := h.work[id];
      StoreKeepsDecided(item, e.k, Slot(Judge(zones[e.k], item.qtype, Received(e.data)), e.data));
    }
  }

  /** Then, over every run, scanning from the cached index finds what scanning from the start does. */
  lemma {:induction false} GuardedRunRescans(zones: seq<Zone>, events: seq<Event>)
    requires AllFit(events, |zones|) && Guarded(zones, events)
    ensures forall id <- Run(zones, events).work ::
              var item := Run(zones, events).work[id];
              DecidedBefore(item) && Scan(item.slots, item.done) == Scan(item.slots, 0)
  {
    if events != [] {
      var h := Run(zones, events[..|events| - 1]);
      GuardedRunRescans(zones, events[..|events| - 1]);
      forall id <- Run(zones, events).work ensures DecidedBefore(Run(zones, events).work[id]) {
        GuardedStep(h, zones, events[|events| - 1], id);
      }
    }
    forall id <- Run(zones, events).work
      ensures Scan(Run(zones, events).work[id].slots, Run(zones, events).work[id].done)
              == Scan(Run(zones, events).work[id].slots, 0)
    {
      CacheIsRescan(Run(zones, events).work[id]);
    }
  }
}
