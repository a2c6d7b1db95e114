/**
 The server as its clients see it: transactions that open and close, each with its own run of queries
 and answers, and the replies they come to.
 */
module ServerRuns {
  import opened Wrappers
  import opened Bytes
  import opened Parser
  import opened Verdict
  import opened QueryWork
  import opened QueryRuns
  import opened Delivery
  import opened Transactions

  /** What the server goes through. */
  datatype Mark =
    | Opened(client: Client)
    | Happened(client: Client, event: Event)
    | Closed(client: Client)

  /** A reply and the client it is for. */
  type Letter = (Client, seq<byte>)

  /** The queries under way of each open transaction, and all replies made so far. */
  datatype World = World(open: map<Client, Work>, replies: seq<Letter>)

  predicate AllShaped(open: map<Client, Work>, n: nat) {
    forall k <- open :: Shaped(open[k], n)
  }

  /** The replies among these entries of one client's log. */
  function RepliesIn(client: Client, entries: seq<Entry>): seq<Letter> {
    if entries == [] then []
    else
      var last := entries[|entries| - 1];
      RepliesIn(client, entries[..|entries| - 1]) +
      if last.Ended? && last.finish.reply.Some? then [(client, last.finish.reply.value)] else []
  }

  /** The mark can come next. */
  predicate Fitting(w: World, zones: seq<Zone>, m: Mark) {
    match m
    case Opened(client) => client !in w.open
    case Happened(client, event) => client in w.open && Fits(event, |zones|)
    case Closed(client) => client in w.open
  }

  function Step(w: World, zones: seq<Zone>, m: Mark): (r: World)
    requires AllShaped(w.open, |zones|) && Fitting(w, zones, m)
    ensures AllShaped(r.open, |zones|)
  {
    match m
    case Opened(client) => w.(open := w.open[client := map[]])
    case Closed(client) => w.(open := w.open - {client})
    case Happened(client, event) =>
      var next := Next(History(w.open[client], []), zones, event);
      World(w.open[client := next.work], w.replies + RepliesIn(client, next.entries))
  }

  /** The world these marks lead to, if each can follow those before it. */
  function After(zones: seq<Zone>, trace: seq<Mark>): (r: Option<World>)
    ensures r.Some? ==> AllShaped(r.value.open, |zones|)
  {
    if trace == [] then Some(World(map[], []))
    else
      match After(zones, trace[..|trace| - 1])
      case None => None
      case Some(w) =>
        var m := trace[|trace| - 1];
        if Fitting(w, zones, m) then Some(Step(w, zones, m)) else None
  }

  lemma OneMoreMark(zones: seq<Zone>, trace: seq<Mark>, m: Mark)
    requires After(zones, trace).Some? && Fitting(After(zones, trace).value, zones, m)
    ensures After(zones, trace + [m]) == Some(Step(After(zones, trace).value, zones, m))
  {
    assert (trace + [m])[..|trace|] == trace;
  }

  lemma MarkOpened(zones: seq<Zone>, trace: seq<Mark>, open: map<Client, Work>, replies: seq<Letter>, client: Client)
    requires After(zones, trace) == Some(World(open, replies)) && client !in open
    ensures After(zones, trace + [Opened(client)]) == Some(World(open[client := map[]], replies))
  {
    OneMoreMark(zones, trace, Opened(client));
  }

  lemma MarkClosed(zones: seq<Zone>, trace: seq<Mark>, open: map<Client, Work>, replies: seq<Letter>, client: Client)
    requires After(zones, trace) == Some(World(open, replies)) && client in open
    ensures After(zones, trace + [Closed(client)]) == Some(World(open - {client}, replies))
  {
    OneMoreMark(zones, trace, Closed(client));
  }

  lemma MarkHappened(zones: seq<Zone>, trace: seq<Mark>, open: map<Client, Work>, replies: seq<Letter>, client: Client,
                     e: Event)
    requires After(zones, trace) == Some(World(open, replies)) && client in open && Fits(e, |zones|)
    ensures Shaped(open[client], |zones|)
    ensures var next := Next(History(open[client], []), zones, e);
            After(zones, trace + [Happened(client, e)])
            == Some(World(open[client := next.work], replies + RepliesIn(client, next.entries)))
  {
    hide Next, Fits, RepliesIn;
    OneMoreMark(zones, trace, Happened(client, e));
  }

  lemma MarkQuery(zones: seq<Zone>, trace: seq<Mark>, open: map<Client, Work>, replies: seq<Letter>, client: Client,
                  data: seq<byte>, sent: seq<bool>)
    requires After(zones, trace) == Some(World(open, replies)) && client in open && |sent| == |zones|
    ensures Shaped(open[client], |zones|)
    ensures After(zones, trace + [Happened(client, Query(data, sent))])
         == Some(World(open[client := AfterQuery(open[client], zones, PacketId(data), PacketType(data), data, sent)], replies))
  {
    MarkHappened(zones, trace, open, replies, client, Query(data, sent));
    hide AfterQuery, PacketId, PacketType, After;
    var entries := Next(History(open[client], []), zones, Query(data, sent)).entries;
    assert entries == [] || entries == [Began(PacketId(data))];
    assert RepliesIn(client, entries) == [];
    assert replies + [] == replies;
  }

  lemma MarkDisconnect(zones: seq<Zone>, trace: seq<Mark>, open: map<Client, Work>, replies: seq<Letter>, client: Client,
                       k: nat)
    requires After(zones, trace) == Some(World(open, replies)) && client in open && k < |zones|
    ensures Shaped(open[client], |zones|)
    ensures After(zones, trace + [Happened(client, Disconnect(k))])
         == Some(World(open[client := AfterDisconnect(open[client], |zones|, k)], replies))
  {
    MarkHappened(zones, trace, open, replies, client, Disconnect(k));
    hide AfterDisconnect, After;
    assert replies + [] == replies;
  }

  /** The letter a settled query makes, if any. */
  function LetterOf(client: Client, finish: Option<Finish>): seq<Letter> {
    if finish.Some? && finish.value.reply.Some? then [(client, finish.value.reply.value)] else []
  }

  lemma MarkAnswer(zones: seq<Zone>, trace: seq<Mark>, open: map<Client, Work>, replies: seq<Letter>, client: Client,
                   k: nat, data: seq<byte>)
    requires After(zones, trace) == Some(World(open, replies)) && client in open && k < |zones|
    ensures Shaped(open[client], |zones|)
    ensures var (work, finish) := if data == [] then (open[client], None)
                                  else AfterAnswer(open[client], zones, k, PacketId(data), Received(data));
            After(zones, trace + [Happened(client, Answer(k, data))])
            == Some(World(open[client := work], replies + LetterOf(client, finish)))
  {
    MarkHappened(zones, trace, open, replies, client, Answer(k, data));
    hide AfterAnswer, Received, PacketId, After;
    if data != [] {
      var (work, finish) := AfterAnswer(open[client], zones, k, PacketId(data), Received(data));
      OneLetter(client, finish);
    }
  }

  lemma OneLetter(client: Client, finish: Option<Finish>)
    ensures RepliesIn(client, if finish.None? then [] else [] + [Ended(finish.value)]) == LetterOf(client, finish)
  {
    if finish.Some? {
      assert [Ended(finish.value)][..0] == [];
    }
  }

  /** What a client's packet brings: its transaction, if it has none yet, and then the query. */
  function PacketMark(known: bool, client: Client, data: seq<byte>, sent: seq<bool>): seq<Mark> {
    (if known then [] else [Opened(client)]) + [Happened(client, Query(data, sent))]
  }

  /** What an event on the socket of a client's k-th connection brings: of its conditions the first counts. */
  function UpstreamMarks(client: Client, k: nat, failed: bool, readable: bool, data: seq<byte>): seq<Mark> {
    if failed then [Happened(client, Disconnect(k))]
    else if readable then [Happened(client, Answer(k, data))]
    else []
  }

  function Closings(clients: seq<Client>): (r: seq<Mark>)
    ensures |r| == |clients|
  {
    seq(|clients|, i requires 0 <= i < |clients| => Closed(clients[i]))
  }

  lemma OneMoreClosing(clients: seq<Client>, client: Client)
    ensures Closings(clients + [client]) == Closings(clients) + [Closed(client)]
  {
  }

  // ----- one client's part

  /** The events of a client's transaction since it was opened last. */
  function EventsSince(trace: seq<Mark>, client: Client): seq<Event> {
    if trace == [] then []
    else
      var last := trace[|trace| - 1];
      if last == Opened(client) then []
      else
        EventsSince(trace[..|trace| - 1], client) + if last.Happened? && last.client == client then [last.event] else []
  }

  /** All that a client's transactions went through. */
  function EventsOf(trace: seq<Mark>, client: Client): seq<Event> {
    if trace == [] then []
    else
      var last := trace[|trace| - 1];
      EventsOf(trace[..|trace| - 1], client) + if last.Happened? && last.client == client then [last.event] else []
  }

  /** The letters to a client. */
  function Share(replies: seq<Letter>, client: Client): seq<seq<byte>> {
    if replies == [] then []
    else Share(replies[..|replies| - 1], client) + if replies[|replies| - 1].0 == client then [replies[|replies| - 1].1] else []
  }

  /** The same since its transaction was opened last. */
  function ShareSince(zones: seq<Zone>, trace: seq<Mark>, client: Client): seq<seq<byte>>
    requires After(zones, trace).Some?
  {
    if trace == [] then []
    else
      var init, last := trace[..|trace| - 1], trace[|trace| - 1];
      if last == Opened(client) then []
      else
        ShareSince(zones, init, client) +
        if last.Happened? && last.client == client then
          Share(RepliesIn(client, Next(History(After(zones, init).value.open[client], []), zones, last.event).entries), client)
        else []
  }

  function RepliesOf(entries: seq<Entry>): seq<seq<byte>> {
    if entries == [] then []
    else
      var last := entries[|entries| - 1];
      RepliesOf(entries[..|entries| - 1]) + if last.Ended? && last.finish.reply.Some? then [last.finish.reply.value] else []
  }

  lemma {:induction false} ShareIsReplies(client: Client, entries: seq<Entry>)
    ensures Share(RepliesIn(client, entries), client) == RepliesOf(entries)
  {
    if entries != [] {
      var init, last := entries[..|entries| - 1], entries[|entries| - 1];
      ShareIsReplies(client, init);
      var letters := RepliesIn(client, init);
      if last.Ended? && last.finish.reply.Some? {
        var letter := (client, last.finish.reply.value);
        assert (letters + [letter])[..|letters|] == letters;
        assert RepliesIn(client, entries) == letters + [letter];
      } else {
        assert RepliesIn(client, entries) == letters;
      }
    }
  }

  lemma {:induction false} RepliesOfAppend(a: seq<Entry>, b: seq<Entry>)
    ensures RepliesOf(a + b) == RepliesOf(a) + RepliesOf(b)
  {
    if b == [] {
      assert a + b == a;
    } else {
      RepliesOfAppend(a, b[..|b| - 1]);
      assert (a + b)[..|a + b| - 1] == a + b[..|b| - 1];
    }
  }

  /** A step depends on the log only in that it adds to it. */
  lemma LogOnlyGrows(h: History, zones: seq<Zone>, e: Event)
    requires Shaped(h.work, |zones|) && Fits(e, |zones|)
    ensures var next, alone := Next(h, zones, e), Next(History(h.work, []), zones, e);
            next.work == alone.work && next.entries == h.entries + alone.entries
  {
    hide AfterQuery, AfterDisconnect, AfterAnswer, Received;
  }

  /**
   An open transaction is where the run of its events leads, and the replies its client got since it
   was opened are those of that run.
   */
  lemma {:induction false} OpenIsRun(zones: seq<Zone>, trace: seq<Mark>, client: Client)
    requires After(zones, trace).Some? && client in After(zones, trace).value.open
    ensures var events := EventsSince(trace, client);
            && AllFit(events, |zones|) && After(zones, trace).value.open[client] == Run(zones, events).work
            && ShareSince(zones, trace, client) == RepliesOf(Run(zones, events).entries)
  {
    hide Next, Run, Fits, RepliesIn, RepliesOf, Share;
    var init, last := trace[..|trace| - 1], trace[|trace| - 1];
    if last == Opened(client) {
      NothingRun(zones);
    } else {
      OpenIsRun(zones, init, client);
      if last.Happened? && last.client == client {
        var work := After(zones, init).value.open[client];
        RunOneMore(zones, EventsSince(init, client), work, last.event);
        ShareIsReplies(client, Next(History(work, []), zones, last.event).entries);
      } else {
        assert EventsSince(trace, client) == EventsSince(init, client);
        assert ShareSince(zones, trace, client) == ShareSince(zones, init, client);
      }
    }
  }

  lemma NothingRun(zones: seq<Zone>)
    ensures AllFit([], |zones|) && Run(zones, []) == History(map[], []) && RepliesOf([]) == []
  {
  }

  lemma RunOneMore(zones: seq<Zone>, events: seq<Event>, work: Work, e: Event)
    requires AllFit(events, |zones|) && Fits(e, |zones|) && work == Run(zones, events).work
    ensures AllFit(events + [e], |zones|)
    ensures var h, alone := Run(zones, events), Next(History(work, []), zones, e);
            && Run(zones, events + [e]).work == alone.work
            && RepliesOf(Run(zones, events + [e]).entries) == RepliesOf(h.entries) + RepliesOf(alone.entries)
  {
    hide Next, Fits;
    assert (events + [e])[..|events|] == events;
    LogOnlyGrows(Run(zones, events), zones, e);
    RepliesOfAppend(Run(zones, events).entries, Next(History(work, []), zones, e).entries);
  }

  // ----- every reply

  ghost predicate Grounded(zones: seq<Zone>, events: seq<Event>, data: seq<byte>) {
    exists id: uint16 :: Earned(zones, events, id, Some(data))
  }

  ghost predicate AllGrounded(zones: seq<Zone>, trace: seq<Mark>, w: World) {
    && (forall k <- w.open :: AllSourced(EventsOf(trace, k), w.open[k]))
    && (forall i :: 0 <= i < |w.replies| ==> Grounded(zones, EventsOf(trace, w.replies[i].0), w.replies[i].1))
  }

  lemma {:induction false} LettersGrounded(zones: seq<Zone>, events: seq<Event>, client: Client, entries: seq<Entry>)
    requires AllEarned(zones, events, entries)
    ensures forall i :: 0 <= i < |RepliesIn(client, entries)| ==>
              RepliesIn(client, entries)[i].0 == client && Grounded(zones, events, RepliesIn(client, entries)[i].1)
  {
    hide Earned;
    if entries != [] {
      LettersGrounded(zones, events, client, entries[..|entries| - 1]);
    }
  }

  lemma GroundedLater(zones: seq<Zone>, events: seq<Event>, more: seq<Event>, data: seq<byte>)
    requires Grounded(zones, events, data)
    ensures Grounded(zones, events + more, data)
  {
    hide Earned;
    var id: uint16 :| Earned(zones, events, id, Some(data));
    EarnedLater(zones, events, more, id, Some(data));
  }

  lemma AllSourcedLater(events: seq<Event>, more: seq<Event>, work: Work)
    requires AllSourced(events, work)
    ensures AllSourced(events + more, work)
  {
    hide Sourced;
    forall id <- work ensures Sourced(events + more, work[id], id) {
      SourcedLater(events, more, work[id], id);
    }
  }

  lemma OneMoreGrounded(zones: seq<Zone>, trace: seq<Mark>, w: World, m: Mark)
    requires AllShaped(w.open, |zones|) && Fitting(w, zones, m) && AllGrounded(zones, trace, w)
    ensures AllGrounded(zones, trace + [m], Step(w, zones, m))
  {
    hide AllSourced, Grounded, Next, Fits;
    assert (trace + [m])[..|trace|] == trace;
    var more := if m.Happened? then [m.event] else [];
    forall k ensures EventsOf(trace + [m], k) == EventsOf(trace, k) + if m.Happened? && m.client == k then more else [] {
    }
    forall k <- w.open ensures AllSourced(EventsOf(trace + [m], k), w.open[k]) {
      AllSourcedLater(EventsOf(trace, k), if m.Happened? && m.client == k then more else [], w.open[k]);
    }
    forall i | 0 <= i < |w.replies| ensures Grounded(zones, EventsOf(trace + [m], w.replies[i].0), w.replies[i].1) {
      var k := w.replies[i].0;
      GroundedLater(zones, EventsOf(trace, k), if m.Happened? && m.client == k then more else [], w.replies[i].1);
    }
    match m
    case Opened(client) =>
      NothingSourced(EventsOf(trace + [m], client));
    case Closed(client) =>
    case Happened(client, event) =>
      var events, h := EventsOf(trace + [m], client), History(w.open[client], []);
      assert events == EventsOf(trace, client) + [event] && event in events;
      StepEarns(h, zones, events, event);
      LettersGrounded(zones, events, client, Next(h, zones, event).entries);
  }

  lemma NothingSourced(events: seq<Event>)
    ensures AllSourced(events, map[])
  {
  }

  /**
   Whatever the server goes through, each reply it ever makes is what becomes of an answer that a zone
   gave to a query of the client it is for, at that zone.
   */
  lemma {:induction false} EveryReplyGrounded(zones: seq<Zone>, trace: seq<Mark>)
    requires After(zones, trace).Some?
    ensures AllGrounded(zones, trace, After(zones, trace).value)
  {
    hide AllGrounded, Fitting, Step;
    if trace == [] {
      NothingGrounded(zones);
    } else {
      var init, m := trace[..|trace| - 1], trace[|trace| - 1];
      EveryReplyGrounded(zones, init);
      OneMoreGrounded(zones, init, After(zones, init).value, m);
      assert init + [m] == trace;
    }
  }

  lemma NothingGrounded(zones: seq<Zone>)
    ensures AllGrounded(zones, [], World(map[], []))
  {
  }
}
