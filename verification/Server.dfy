/**
 The running server: the table of transactions, the table of upstream sockets, and the event loop
 that changes them (src/Server.cpp, src/WorkManager.cpp). Sockets are closed only between batches.
 */
module Servers {
  import opened Wrappers
  import opened Bytes
  import opened Parser
  import opened Verdict
  import opened QueryRuns
  import opened QueryWork
  import opened ServerRuns
  import opened Transactions

  const READ_PER_EVENT := 64
  const TIME_OUT := 10000
  const CLEAN_INTERVAL := 1000

  /** Unsigned 64-bit difference of two times in milliseconds. */
  function Elapsed(now: nat, since: nat): nat {
    (now - since) % 0x1_0000_0000_0000_0000
  }

  /** The time that passed, or, when the clock runs backwards, what 64 bits make of it. */
  lemma {:induction false} ElapsedExactly(now: nat, since: nat)
    requires now < 0x1_0000_0000_0000_0000 && since < 0x1_0000_0000_0000_0000
    ensures since <= now ==> Elapsed(now, since) == now - since
    ensures now < since ==> Elapsed(now, since) == 0x1_0000_0000_0000_0000 - (since - now)
  {
  }

  /** A query's packet, with the kernel's choices while it is handled. */
  datatype Datagram = Datagram(client: Client, data: seq<byte>, wishes: nat -> int, answers: nat -> Sending, now: nat)

  /** One entry of a batch. Of an upstream's three conditions only the first that holds is handled. */
  datatype Happening =
    | Listen(readable: bool, writable: bool, datagrams: seq<Datagram>, answers: nat -> Sending)
    | Upstreams(fd: int, failed: bool, readable: bool, writable: bool, data: seq<byte>, answers: nat -> Sending)
    | Quit

  datatype Batch = Batch(happenings: seq<Happening>, now: nat)

  /** One more key is looked at, and taken out if it is among these. */
  lemma OneLess<V>(all: map<Client, V>, now: map<Client, V>, keys: set<Client>, left: set<Client>, out: set<Client>, k: Client)
    requires k in left && left <= keys && now == all - (keys - left) * out
    ensures k in out ==> now - {k} == all - (keys - (left - {k})) * out
    ensures k !in out || k !in now ==> now == all - (keys - (left - {k})) * out
  {
  }

  /** Every socket in the first table is still there, and means the same connection. */
  predicate Extends(table: map<int, DNSConnect>, next: map<int, DNSConnect>) {
    forall fd <- table :: fd in next && next[fd] == table[fd]
  }

  /** The first n datagrams are those that one event takes: 64 at most, none of them empty, and no fewer. */
  ghost predicate ReadsUpTo(datagrams: seq<Datagram>, n: nat)
    requires n <= |datagrams|
  {
    && n <= 64 && (forall i :: 0 <= i < n ==> datagrams[i].data != [])
    && (n < 64 && n < |datagrams| ==> datagrams[n].data == [])
  }

  /** The clients of these datagrams. */
  function Clients(datagrams: seq<Datagram>): set<Client> {
    set i | 0 <= i < |datagrams| :: datagrams[i].client
  }

  /** What these datagrams bring, when these clients have a transaction before. */
  ghost function PacketMarks(open: set<Client>, datagrams: seq<Datagram>, sents: seq<seq<bool>>): seq<Mark>
    requires |datagrams| == |sents|
  {
    if datagrams == [] then []
    else
      var n := |datagrams| - 1;
      var d := datagrams[n];
      PacketMarks(open, datagrams[..n], sents[..n]) +
      PacketMark(d.client in open + Clients(datagrams[..n]), d.client, d.data, sents[n])
  }

  /** A client's packet opens its transaction, or adds to it, and leaves the others alone. */
  ghost predicate TookOne(before: map<Client, Work>, after: map<Client, Work>, d: Datagram) {
    && after.Keys == before.Keys + {d.client}
    && (forall k <- before :: before[k].Keys <= after[k].Keys && (k != d.client ==> after[k] == before[k]))
    && (|d.data| >= 2 ==> PacketId(d.data) in after[d.client])
  }

  /** The same of all these packets: every query among them is under way afterwards. */
  ghost predicate TookAll(before: map<Client, Work>, after: map<Client, Work>, datagrams: seq<Datagram>) {
    && after.Keys == before.Keys + Clients(datagrams)
    && (forall k <- before :: before[k].Keys <= after[k].Keys && (k !in Clients(datagrams) ==> after[k] == before[k]))
    && (forall i :: 0 <= i < |datagrams| && |datagrams[i].data| >= 2 ==>
          datagrams[i].client in after && PacketId(datagrams[i].data) in after[datagrams[i].client])
  }

  /** All these packets have been taken, in order, and nothing besides. */
  ghost predicate Arrived(before: map<Client, Work>, after: map<Client, Work>, trace: seq<Mark>, next: seq<Mark>,
                          datagrams: seq<Datagram>, sents: seq<seq<bool>>) {
    && TookAll(before, after, datagrams)
    && |sents| == |datagrams| && next == trace + PacketMarks(before.Keys, datagrams, sents)
  }

  lemma QueryTaken(before: map<Client, Work>, after: map<Client, Work>, zones: seq<Zone>, d: Datagram, sent: seq<bool>)
    requires |sent| == |zones| && after.Keys == before.Keys + {d.client}
    requires forall k <- before :: k != d.client ==> after[k] == before[k]
    requires var items := if d.client in before then before[d.client] else map[];
             Shaped(items, |zones|) && after[d.client]
                  == AfterQuery(items, zones, PacketId(d.data), PacketType(d.data), d.data, sent)
    ensures TookOne(before, after, d)
  {
    hide NewSlots, Resent, PacketId, PacketType;
  }

  lemma NothingArrived(queries: map<Client, Work>, trace: seq<Mark>)
    ensures Arrived(queries, queries, trace, trace, [], [])
  {
  }

  lemma OneMoreClient(datagrams: seq<Datagram>, d: Datagram)
    ensures Clients(datagrams + [d]) == Clients(datagrams) + {d.client}
  {
    var more := datagrams + [d];
    assert more[|datagrams|] == d && more[..|datagrams|] == datagrams;
    forall k | k in Clients(datagrams) ensures k in Clients(more) {
      var i :| 0 <= i < |datagrams| && datagrams[i].client == k;
      assert more[i].client == k;
    }
  }

  lemma OneMoreArrived(first: map<Client, Work>, before: map<Client, Work>, after: map<Client, Work>, trace: seq<Mark>,
                       soFar: seq<Mark>, next: seq<Mark>, datagrams: seq<Datagram>, sents: seq<seq<bool>>, d: Datagram,
                       sent: seq<bool>)
    requires Arrived(first, before, trace, soFar, datagrams, sents) && TookOne(before, after, d)
    requires next == soFar + PacketMark(d.client in before, d.client, d.data, sent)
    ensures Arrived(first, after, trace, next, datagrams + [d], sents + [sent])
  {
    hide PacketMark, Clients, PacketId;
    OneMoreClient(datagrams, d);
    var more, all := datagrams + [d], sents + [sent];
    assert more[..|datagrams|] == datagrams && all[..|sents|] == sents;
    assert forall i :: 0 <= i < |more| ==> more[i] == if i < |datagrams| then datagrams[i] else d;
    assert PacketMarks(first.Keys, more, all) == PacketMarks(first.Keys, datagrams, sents) +
           PacketMark(d.client in first.Keys + Clients(datagrams), d.client, d.data, sent);
  }

  /** The event ends the server: a signal, or a failure of the listening socket. */
  predicate Stops(h: Happening) {
    h.Quit? || (h.Listen? && !h.readable && !h.writable)
  }

  /** The marks are those of the datagrams one event takes. */
  ghost predicate ListenCaused(open: set<Client>, datagrams: seq<Datagram>, marks: seq<Mark>) {
    exists n: nat, sents: seq<seq<bool>> :: Took(open, datagrams, marks, n, sents)
  }

  ghost predicate Took(open: set<Client>, datagrams: seq<Datagram>, marks: seq<Mark>, n: nat, sents: seq<seq<bool>>) {
    && n <= |datagrams| && |sents| == n && ReadsUpTo(datagrams, n)
    && marks == PacketMarks(open, datagrams[..n], sents)
  }

  /** What one event brings, when these clients have a transaction and these sockets are open. */
  ghost predicate Caused(h: Happening, open: set<Client>, table: map<int, DNSConnect>, marks: seq<Mark>) {
    match h
    case Quit => marks == []
    case Listen(readable, _, datagrams, _) => if readable then ListenCaused(open, datagrams, marks) else marks == []
    case Upstreams(fd, failed, readable, _, data, _) =>
      marks == if fd in table then UpstreamMarks(table[fd].owner.client, table[fd].index, failed, readable, data) else []
  }

  lemma ListenCauses(before: map<Client, Work>, after: map<Client, Work>, trace: seq<Mark>, next: seq<Mark>,
                     datagrams: seq<Datagram>, n: nat, sents: seq<seq<bool>>)
    returns (marks: seq<Mark>)
    requires n <= |datagrams| && ReadsUpTo(datagrams, n) && Arrived(before, after, trace, next, datagrams[..n], sents)
    ensures next == trace + marks && ListenCaused(before.Keys, datagrams, marks)
  {
    hide ReadsUpTo, PacketMarks, TookAll;
    marks := PacketMarks(before.Keys, datagrams[..n], sents);
    assert Took(before.Keys, datagrams, marks, n, sents);
  }

  /** Replies made now are on their way, unless the kernel refuses the first of an empty queue. */
  function Posted(queue: seq<Letter>, answer: Sending, letters: seq<Letter>): seq<Letter> {
    if queue == [] && answer == Refused then [] else letters
  }

  /** What one event of a batch brings, when these sockets were open at the batch's start and are at its end. */
  ghost predicate Brings(h: Happening, before: map<int, DNSConnect>, after: map<int, DNSConnect>, marks: seq<Mark>) {
    match h
    case Quit => marks == []
    case Listen(readable, _, datagrams, _) =>
      if readable then exists open: set<Client> :: ListenCaused(open, datagrams, marks) else marks == []
    case Upstreams(fd, failed, readable, _, data, _) =>
      if fd in before then marks == UpstreamMarks(before[fd].owner.client, before[fd].index, failed, readable, data)
      else if fd !in after then marks == []
      else marks == [] || marks == UpstreamMarks(after[fd].owner.client, after[fd].index, failed, readable, data)
  }

  ghost predicate AllBring(happenings: seq<Happening>, before: map<int, DNSConnect>, after: map<int, DNSConnect>,
                            marks: seq<seq<Mark>>) {
    |marks| <= |happenings| && forall i :: 0 <= i < |marks| ==> Brings(happenings[i], before, after, marks[i])
  }

  /** All events are handled, or those up to the first that ends the server. */
  predicate Handled(happenings: seq<Happening>, marks: seq<seq<Mark>>, stop: bool) {
    && |marks| <= |happenings| && (stop ==> marks != []) && (!stop ==> |marks| == |happenings|)
    && forall i :: 0 <= i < |marks| ==> Stops(happenings[i]) == (stop && i == |marks| - 1)
  }

  function Flat(marks: seq<seq<Mark>>): seq<Mark> {
    if marks == [] then [] else Flat(marks[..|marks| - 1]) + marks[|marks| - 1]
  }

  lemma NoMarks(happenings: seq<Happening>, table: map<int, DNSConnect>)
    ensures Flat([]) == [] && AllBring(happenings, table, table, []) && Extends(table, table)
  {
  }

  lemma BringsLater(h: Happening, before: map<int, DNSConnect>, after: map<int, DNSConnect>, later: map<int, DNSConnect>,
                    marks: seq<Mark>)
    requires Brings(h, before, after, marks) && Extends(after, later)
    ensures Brings(h, before, later, marks)
  {
    hide ListenCaused, UpstreamMarks;
  }

  lemma CausedBrings(h: Happening, open: set<Client>, before: map<int, DNSConnect>, table: map<int, DNSConnect>,
                     after: map<int, DNSConnect>, marks: seq<Mark>)
    requires Caused(h, open, table, marks) && Extends(before, table) && Extends(table, after)
    ensures Brings(h, before, after, marks)
  {
    hide ListenCaused, UpstreamMarks;
  }

  lemma FlatOneMore(marks: seq<seq<Mark>>, more: seq<Mark>)
    ensures Flat(marks + [more]) == Flat(marks) + more
  {
    assert (marks + [more])[..|marks|] == marks;
  }

  lemma OneMoreBrought(happenings: seq<Happening>, before: map<int, DNSConnect>, table: map<int, DNSConnect>,
                       after: map<int, DNSConnect>, open: set<Client>, marks: seq<seq<Mark>>, more: seq<Mark>)
    requires |marks| < |happenings| && AllBring(happenings, before, table, marks)
    requires Caused(happenings[|marks|], open, table, more) && Extends(before, table) && Extends(table, after)
    ensures AllBring(happenings, before, after, marks + [more]) && Flat(marks + [more]) == Flat(marks) + more
    ensures Extends(before, after)
  {
    hide Caused, Brings, Flat, Extends;
    ExtendsFurther(before, table, after);
    FlatOneMore(marks, more);
    CausedBrings(happenings[|marks|], open, before, table, after, more);
    var all := marks + [more];
    forall i | 0 <= i < |all| ensures Brings(happenings[i], before, after, all[i]) {
      if i < |marks| {
        BringsLater(happenings[i], before, table, after, marks[i]);
      } else {
        assert all[i] == more;
      }
    }
  }

  lemma ExtendsFurther(table: map<int, DNSConnect>, next: map<int, DNSConnect>, last: map<int, DNSConnect>)
    requires Extends(table, next) && Extends(next, last)
    ensures Extends(table, last)
  {
  }

  /** A batch, and the transactions that were closed behind it. */
  datatype Round = Round(marks: seq<seq<Mark>>, quiet: seq<Client>, stale: seq<Client>)

  function MarksOf(round: Round): seq<Mark> {
    Flat(round.marks) + Closings(round.quiet) + Closings(round.stale)
  }

  function AllRounds(rounds: seq<Round>): seq<Mark> {
    if rounds == [] then [] else AllRounds(rounds[..|rounds| - 1]) + MarksOf(rounds[|rounds| - 1])
  }

  lemma NoClosings()
    ensures Closings([]) == []
  {
  }

  /** What the batch may bring, on whatever sockets are open. */
  ghost predicate RoundOf(batch: Batch, round: Round, stop: bool) {
    && Handled(batch.happenings, round.marks, stop) && (stop ==> round.quiet == round.stale == [])
    && forall i :: 0 <= i < |round.marks| ==> Plausible(batch.happenings[i], round.marks[i])
  }

  ghost predicate Plausible(h: Happening, marks: seq<Mark>) {
    match h
    case Quit => marks == []
    case Listen(readable, _, datagrams, _) =>
      if readable then exists open: set<Client> :: ListenCaused(open, datagrams, marks) else marks == []
    case Upstreams(_, failed, readable, _, data, _) =>
      marks == [] || exists client: Client, k: nat :: marks == UpstreamMarks(client, k, failed, readable, data)
  }

  ghost predicate RoundsSoFar(batches: seq<Batch>, rounds: seq<Round>, stop: bool) {
    && |rounds| <= |batches| && (stop ==> rounds != [])
    && forall i :: 0 <= i < |rounds| ==> RoundOf(batches[i], rounds[i], stop && i == |rounds| - 1)
  }

  /** All batches have their rounds, or those up to the first that ends the server. */
  ghost predicate RoundsOf(batches: seq<Batch>, rounds: seq<Round>) {
    if |rounds| == |batches| then RoundsSoFar(batches, rounds, true) || RoundsSoFar(batches, rounds, false)
    else RoundsSoFar(batches, rounds, true)
  }

  lemma NoRounds(batches: seq<Batch>)
    ensures AllRounds([]) == [] && RoundsSoFar(batches, [], false)
  {
  }

  lemma RoundsDone(batches: seq<Batch>, rounds: seq<Round>, stop: bool)
    requires RoundsSoFar(batches, rounds, stop) && (stop || |rounds| == |batches|)
    ensures RoundsOf(batches, rounds)
  {
    hide RoundsSoFar;
  }

  lemma BroughtIsPlausible(h: Happening, before: map<int, DNSConnect>, after: map<int, DNSConnect>, marks: seq<Mark>)
    requires Brings(h, before, after, marks)
    ensures Plausible(h, marks)
  {
    hide ListenCaused, UpstreamMarks;
  }

  lemma AllPlausible(happenings: seq<Happening>, before: map<int, DNSConnect>, after: map<int, DNSConnect>,
                     marks: seq<seq<Mark>>)
    requires AllBring(happenings, before, after, marks)
    ensures forall i :: 0 <= i < |marks| ==> Plausible(happenings[i], marks[i])
  {
    hide Brings, Plausible;
    forall i | 0 <= i < |marks| ensures Plausible(happenings[i], marks[i]) {
      BroughtIsPlausible(happenings[i], before, after, marks[i]);
    }
  }

  lemma OneMoreRound(batches: seq<Batch>, rounds: seq<Round>, round: Round, stop: bool)
    requires |rounds| < |batches| && RoundsSoFar(batches, rounds, false) && RoundOf(batches[|rounds|], round, stop)
    ensures RoundsSoFar(batches, rounds + [round], stop)
    ensures AllRounds(rounds + [round]) == AllRounds(rounds) + MarksOf(round)
  {
    hide RoundOf, MarksOf;
    assert (rounds + [round])[..|rounds|] == rounds;
  }

  lemma NothingPosted(queue: seq<Letter>, answer: Sending)
    ensures Posted(queue, answer, []) == []
  {
  }

  /** A client all of whose queries are settled asks for its transaction to be closed. */
  function Emptied(client: Client, before: Work, after: Work): set<Client> {
    if before != map[] && after == map[] then {client} else {}
  }

  lemma NothingEmptied(client: Client, work: Work)
    ensures Emptied(client, work, work) == {}
  {
  }

  lemma SameKeys(work: Work, n: nat, k: nat)
    requires Shaped(work, n) && k < n
    ensures AfterDisconnect(work, n, k).Keys == work.Keys
  {
  }

  lemma EmptiedBySettling(client: Client, work: Work, zones: seq<Zone>, k: nat, data: seq<byte>)
    requires Shaped(work, |zones|) && k < |zones|
    ensures var (next, finish) := AfterAnswer(work, zones, k, PacketId(data), Received(data));
            Emptied(client, work, next) == if finish.Some? && next == map[] then {client} else {}
  {
    hide Judge, Received;
    var (next, finish) := AfterAnswer(work, zones, k, PacketId(data), Received(data));
    if finish.None? {
      assert next.Keys == work.Keys;
    }
  }

  class Server {
    const zones: seq<Zone>
    const kernel: Kernel
    const connections: MapManager<int, DNSConnect>
    var works: map<Client, DNSQueryWork>
    var idle: set<Client>
    var sendQueue: seq<(Client, seq<byte>)>
    var lastClean: nat
    ghost var all: set<DNSConnect>               // every connection there ever was
    ghost var sent: seq<(Client, seq<byte>)>     // replies the kernel took
    ghost var replies: seq<(Client, seq<byte>)>  // replies ever made
    ghost var began: multiset<(Client, uint16)>  // queries that began,
    ghost var ended: multiset<(Client, uint16)>  // that were settled,
    ghost var dropped: multiset<(Client, uint16)>  // and that were closed with their transaction
    ghost var trace: seq<Mark>                   // all that happened

    /** The sockets are exactly those of the connections of the table's transactions, and of some more. */
    ghost predicate ValidWith(more: set<DNSQueryWork>)
      reads this`works, this`all, kernel, connections, works.Values, all
    {
      && zones != [] && -1 !in connections.items && kernel.open == connections.items.Keys
      && (forall k <- works :: works[k].client == k && works[k].zones == zones)
      && (forall k <- works :: forall c <- works[k].connects :: c in all)
      && (forall k <- works :: works[k].Wired() && works[k].Registered(connections.items))
      && (forall fd <- connections.items :: connections.items[fd].owner in more || Live(connections.items[fd].owner))
    }

    /** The two tables agree: the sockets are exactly those of the transactions' connections. */
    ghost predicate Valid()
      reads this`works, this`all, kernel, connections, works.Values, all
    {
      ValidWith({})
    }

    /** The callback target of a connection is a transaction in the table. */
    ghost predicate Live(work: DNSQueryWork)
      reads this`works
    {
      work.client in works && works[work.client] == work
    }

    /** The i-th connection of a client's transaction has this socket. */
    ghost predicate Owns(k: Client, i: nat, fd: int)
      reads this`works, this`all, works.Values, all
    {
      k in works && i < |works[k].connects| && works[k].connects[i] in all && works[k].connects[i].fdSock == fd && fd != -1
    }

    /** Each open upstream socket has exactly one owner among the transactions, and they own no other. */
    lemma {:induction false} SocketsArePartitioned(fd: int)
      requires Valid()
      ensures fd in kernel.open <==> exists k, i: nat :: Owns(k, i, fd)
      ensures forall j, m: nat, k, i: nat :: Owns(j, m, fd) && Owns(k, i, fd) ==> j == k && m == i
    {
      var table := connections.items;
      forall k, i: nat | Owns(k, i, fd)
        ensures fd in table && table[fd].owner.client == k && table[fd].index == i
      {
        assert works[k].Wired() && works[k].Registered(table);
      }
      if fd in table {
        assert Live(table[fd].owner);
        var work := works[table[fd].owner.client];
        assert work.Wired() && work.Registered(table);
        assert Owns(work.client, table[fd].index, fd);
      }
    }

    ghost predicate UnderWay(k: Client, id: uint16)
      reads this`works, works.Values
    {
      k in works && id in works[k].items
    }

    /** Every query that began was settled, was closed with its transaction, or is under way. */
    ghost predicate Accounted()
      reads this`works, this`began, this`ended, this`dropped, works.Values
    {
      forall k: Client, id: uint16 :: began[(k, id)] == ended[(k, id)] + dropped[(k, id)] + if UnderWay(k, id) then 1 else 0
    }

    /** The same, but for one client it is these queries that are under way. */
    ghost predicate AccountedWith(client: Client, ids: set<uint16>)
      reads this`works, this`began, this`ended, this`dropped, works.Values
    {
      forall k: Client, id: uint16 ::
        began[(k, id)] == ended[(k, id)] + dropped[(k, id)] +
                          if (if k == client then id in ids else UnderWay(k, id)) then 1 else 0
    }

    /** No reply is empty, and each carries the ID of a query its client asked. */
    ghost predicate Faithful()
      reads this`works, this`replies, this`ended, works.Values
    {
      && (forall k <- works :: AllSound(works[k].items))
      && (forall i :: 0 <= i < |replies| ==> replies[i].1 != [] && (replies[i].0, PacketId(replies[i].1)) in ended)
    }

    ghost predicate Steady()
      reads this`works, this`all, this`replies, this`began, this`ended, this`dropped, kernel, connections, works.Values, all
    {
      Valid() && Accounted() && Faithful()
    }

    /** Each client's queries under way. */
    ghost function Queries(): map<Client, Work>
      reads this`works, works.Values
    {
      map k | k in works :: works[k].items
    }

    /** The queries under way and the replies are those that what happened leads to. */
    ghost predicate Traced()
      reads this`works, this`replies, this`trace, works.Values
    {
      After(zones, trace) == Some(World(Queries(), replies))
    }

    /** All that every step keeps. */
    ghost predicate Good()
      reads this`works, this`all, this`replies, this`began, this`ended, this`dropped, this`trace
      reads kernel, connections, works.Values, all
    {
      Steady() && Traced()
    }

    lemma GoodMeans()
      requires Good()
      ensures Steady() && After(zones, trace) == Some(World(Queries(), replies))
      ensures Queries().Keys == works.Keys && forall k <- works :: Queries()[k] == works[k].items
    {
      hide Steady, After;
    }

    lemma MeansGood()
      requires Steady() && After(zones, trace) == Some(World(Queries(), replies))
      ensures Good()
    {
      hide Steady, After;
    }

    /** Only this client's queries are others than they were. */
    twostate lemma OneClients(k: Client)
      requires k in works && works.Keys == old(works.Keys) + {k}
      requires forall i <- old(works) :: works[i] == old(works)[i] && (i != k ==> works[i].items == old(works[i].items))
      ensures Queries() == old(Queries())[k := works[k].items]
    {
    }

    twostate lemma OneClosed(k: Client)
      requires works == old(works) - {k} && forall i <- works :: works[i].items == old(works[i].items)
      ensures Queries() == old(Queries()) - {k}
    {
    }

    constructor (zones: seq<Zone>)
      requires zones != []
      ensures Good() && fresh(kernel) && fresh(connections)
      ensures this.zones == zones && works == map[] && all == {} && idle == {} && trace == []
    {
      this.zones := zones;
      kernel := new Kernel();
      connections := new MapManager();
      works, idle, sendQueue, lastClean := map[], {}, [], 0;
      all, sent, replies, trace := {}, [], [], [];
      began, ended, dropped := multiset{}, multiset{}, multiset{};
    }

    // ----- closing

    method CloseSockets(k: Client)
      requires Valid() && k in works
      modifies connections, kernel, all
      ensures Valid()
      ensures connections.items == Without(old(connections.items), works[k])
    {
      works[k].Exit(connections, kernel);
    }

    ghost method WriteOff(k: Client)
      requires Accounted() && k in works
      modifies this`dropped
      ensures AccountedWith(k, {})
      ensures works[k].items == map[] ==> dropped == old(dropped)
    {
      var ids := works[k].items.Keys;
      dropped := dropped + multiset(set id | id in ids :: (k, id));
      assert ids == {} ==> (set id | id in ids :: (k, id)) == {};
    }

    twostate lemma OneGone(k: Client)
      requires old(AccountedWith(k, {}) && Faithful()) && works == old(works) - {k}
      requires (began, ended, dropped, replies) == old((began, ended, dropped, replies))
      requires forall i <- works :: works[i].items == old(works[i].items)
      ensures Accounted() && Faithful()
    {
    }

    method Forget(k: Client)
      requires Valid() && AccountedWith(k, {}) && Faithful() && k in works
      requires forall fd <- connections.items :: connections.items[fd].owner != works[k]
      modifies this`works
      ensures Valid() && Accounted() && Faithful()
      ensures works == old(works) - {k}
    {
      hide Accounted, AccountedWith, Faithful;
      works := works - {k};
      OneGone(k);
    }

    method CloseTransaction(k: Client)
      requires Steady() && k in works
      modifies this`works, this`dropped, connections, kernel, all
      ensures Steady()
      ensures works == old(works) - {k}
      ensures connections.items == Without(old(connections.items), old(works[k]))
      ensures old(works[k].items) == map[] ==> dropped == old(dropped)
    {
      hide Valid, ValidWith, Accounted, AccountedWith, Faithful;
      WriteOff(k);
      CloseSockets(k);
      Forget(k);
    }

    /** A transaction's sockets close, and with it go the queries it still had. */
    method Close(k: Client)
      requires Good() && k in works
      modifies this`works, this`dropped, this`trace, connections, kernel, all
      ensures Good() && trace == old(trace) + [Closed(k)]
      ensures works == old(works) - {k}
      ensures connections.items == Without(old(connections.items), old(works[k]))
      ensures old(works[k].items) == map[] ==> dropped == old(dropped)
    {
      hide Good, Steady, Queries, After;
      GoodMeans();
      CloseTransaction(k);
      OneClosed(k);
      MarkClosed(zones, trace, old(Queries()), replies, k);
      trace := trace + [Closed(k)];
      MeansGood();
    }

    /** The clients with no query under way. */
    ghost function Quiet(): set<Client>
      reads this`works, works.Values
    {
      set k | k in works && works[k].items == map[]
    }

    /** The clients whose last query came more than ten seconds ago. */
    ghost function Stale(now: nat): set<Client>
      reads this`works, works.Values
    {
      set k | k in works && Elapsed(now, works[k].lastTouch) > TIME_OUT
    }

    /** A transaction is stale when its client's last query came more than 10000 milliseconds ago. */
    lemma {:induction false} StaleExactly(now: nat, k: Client)
      requires k in works && works[k].lastTouch <= now < 0x1_0000_0000_0000_0000
      ensures k in Stale(now) <==> now > works[k].lastTouch + 10000
    {
      ElapsedExactly(now, works[k].lastTouch);
    }

    /** Closes the transactions noted as idle that still are; one that took a new query stays. */
    method CloseIdle() returns (ghost closed: seq<Client>)
      requires Good()
      modifies this`works, this`idle, this`dropped, this`trace, connections, kernel, all
      ensures Good() && trace == old(trace) + Closings(closed)
      ensures works == old(works) - old(idle) * old(Quiet())
      ensures idle == {} && dropped == old(dropped)
    {
      hide Good, Closings, Steady, After, Queries, Valid, Without;
      ghost var quiet := Quiet();
      var left := idle;
      closed := [];
      while left != {}
        invariant left <= idle == old(idle) && dropped == old(dropped)
        invariant works == old(works) - (idle - left) * quiet
        invariant Good() && trace == old(trace) + Closings(closed)
        decreases left
      {
        var k :| k in left;
        OneLess(old(works), works, idle, left, quiet, k);
        left := left - {k};
        if k in works && works[k].IsIdle() {
          Close(k);
          OneMoreClosing(closed, k);
          closed := closed + [k];
        }
      }
      idle := {};
    }

    method ClearTimeout(now: nat) returns (ghost closed: seq<Client>)
      requires Good()
      modifies this`works, this`dropped, this`trace, connections, kernel, all
      ensures Good() && trace == old(trace) + Closings(closed)
      ensures works == old(works) - old(Stale(now))
      ensures Stale(now) == {}
    {
      hide Good, Closings, Steady, After, Queries, Valid, Without;
      ghost var stale := Stale(now);
      var left := works.Keys;
      closed := [];
      while left != {}
        invariant left <= works.Keys
        invariant works == old(works) - (stale - left)
        invariant Good() && trace == old(trace) + Closings(closed)
        decreases left
      {
        var k :| k in left;
        left := left - {k};
        assert works[k].lastTouch == old(works[k].lastTouch);
        if Elapsed(now, works[k].lastTouch) > TIME_OUT {
          Close(k);
          OneMoreClosing(closed, k);
          closed := closed + [k];
        }
      }
    }

    lemma NothingLeft()
      requires Good() && works == map[]
      ensures connections.items == map[] && kernel.open == {}
    {
      assert forall fd <- connections.items :: Live(connections.items[fd].owner);
      assert connections.items.Keys == {};
    }

    /** At exit no transaction and no upstream socket is left. */
    method ExitAndClear() returns (ghost closed: seq<Client>)
      requires Good()
      modifies this`works, this`dropped, this`trace, connections, kernel, all
      ensures Good() && trace == old(trace) + Closings(closed)
      ensures works == map[] && connections.items == map[] && kernel.open == {}
    {
      hide Good, Closings, Steady, After, Queries, Valid, Without;
      closed := [];
      while works != map[]
        invariant forall k <- works :: k in old(works) && works[k] == old(works)[k]
        invariant Good() && trace == old(trace) + Closings(closed)
        decreases |works|
      {
        var k :| k in works;
        Close(k);
        OneMoreClosing(closed, k);
        closed := closed + [k];
      }
      NothingLeft();
    }

    // ----- events

    method Prepare(client: Client, wishes: nat -> int) returns (work: DNSQueryWork)
      requires Valid() && client !in works
      modifies connections, kernel
      ensures ValidWith({work}) && fresh(work) && work.client == client && work.zones == zones && work.items == map[]
      ensures fresh(work.connects) && work.Wired() && work.Registered(connections.items)
      ensures Extends(old(connections.items), connections.items)
    {
      work := new DNSQueryWork(client, zones);
      var ok := work.Init(connections, kernel, wishes);
      forall k | k in works ensures works[k].Wired() && works[k].Registered(connections.items) {
        StaysRegistered(works[k], old(connections.items), connections.items, work);
      }
      OthersStay(old(connections.items), connections.items, work);
    }

    lemma OthersStay(table: map<int, DNSConnect>, next: map<int, DNSConnect>, work: DNSQueryWork)
      requires Without(next, work) == table
      ensures Extends(table, next) && forall fd <- next :: next[fd].owner == work || (fd in table && next[fd] == table[fd])
    {
      assert forall fd <- next :: next[fd].owner != work ==> fd in Without(next, work);
      assert forall fd <- table :: fd in Without(next, work);
    }

    lemma StaysRegistered(other: DNSQueryWork, table: map<int, DNSConnect>, next: map<int, DNSConnect>,
            work: DNSQueryWork)
      requires other.Wired() && other.Registered(table) && Without(next, work) == table && other != work && -1 !in next
      ensures other.Registered(next)
    {
      assert forall fd <- table :: fd in Without(next, work);
      assert forall fd <- next :: next[fd].owner == other ==> fd in Without(next, work);
    }

    method SaveWork(work: DNSQueryWork)
      requires ValidWith({work}) && work.client !in works && work.zones == zones
      requires work.Wired() && work.Registered(connections.items)
      modifies this`works, this`all
      ensures Valid() && works == old(works)[work.client := work] && all == old(all) + (set c | c in work.connects)
    {
      works := works[work.client := work];
      all := all + set c | c in work.connects;
    }

    /** A transaction that has no query yet changes no account. */
    twostate lemma OneAdmitted(new work: DNSQueryWork)
      requires old(Accounted() && Faithful()) && work.client !in old(works) && work.items == map[]
      requires works == old(works)[work.client := work] && forall k <- old(works) :: works[k].items == old(works[k].items)
      requires (began, ended, dropped, replies) == old((began, ended, dropped, replies))
      ensures Accounted() && Faithful()
    {
    }

    /** The transaction of a client, set up if it has none. Only new sockets appear. */
    method Admit(client: Client, wishes: nat -> int) returns (work: DNSQueryWork)
      requires Steady()
      modifies this`works, this`all, connections, kernel
      ensures Steady()
      ensures client in works && work == works[client] && work.client == client
      ensures forall k <- works :: works[k].client == k
      ensures client in old(works) ==> works == old(works)
      ensures client !in old(works) ==> works == old(works)[client := work] && fresh(work) && work.items == map[]
      ensures Extends(old(connections.items), connections.items) && old(all) <= all && fresh(all - old(all))
    {
      assert forall k <- works :: works[k].client == k;
      hide Valid, ValidWith, Accounted, Faithful;
      if client in works {
        return works[client];
      }
      work := Prepare(client, wishes);
      SaveWork(work);
      OneAdmitted(work);
    }

    method Ask(work: DNSQueryWork, id: uint16, qtype: uint16, data: seq<byte>, answers: nat -> Sending, now: nat)
      returns (ghost sent: seq<bool>)
      requires Valid() && Live(work)
      modifies work`lastTouch, work`items, all
      ensures Valid()
      ensures |sent| == |zones| && Shaped(old(work.items), |zones|)
      ensures work.items == AfterQuery(old(work.items), zones, id, qtype, data, sent)
      ensures work.lastTouch == now
    {
      sent := work.ServerNewWork(id, qtype, data, answers, now);
      assert work.Registered(connections.items);
    }

    ghost method Begin(work: DNSQueryWork, ids: set<uint16>, id: uint16)
      requires Live(work) && AccountedWith(work.client, ids)
      requires work.items.Keys == ids || (id !in ids && work.items.Keys == ids + {id})
      modifies this`began
      ensures Accounted()
    {
      if work.items.Keys != ids {
        began := began + multiset{(work.client, id)};
      }
      assert forall i: uint16 :: UnderWay(work.client, i) <==> i in work.items.Keys;
    }

    /** What a step that changes one transaction's queries leaves to be accounted for. */
    twostate lemma OneChanged(work: DNSQueryWork)
      requires old(Steady()) && works == old(works) && Live(work)
      requires (began, ended, dropped, replies) == old((began, ended, dropped, replies))
      requires forall k <- works :: works[k] != work ==> works[k].items == old(works[k].items)
      ensures AccountedWith(work.client, old(work.items.Keys))
      ensures AllSound(old(work.items)) && (AllSound(work.items) ==> Faithful())
    {
    }

    method TakeQuery(work: DNSQueryWork, id: uint16, qtype: uint16, d: Datagram) returns (ghost sent: seq<bool>)
      requires Steady() && Live(work) && id == PacketId(d.data)
      modifies this`began, work`lastTouch, work`items, all
      ensures Steady()
      ensures |sent| == |zones| && Shaped(old(work.items), |zones|)
      ensures work.items == AfterQuery(old(work.items), zones, id, qtype, d.data, sent)
      ensures work.lastTouch == d.now
    {
      hide Valid, ValidWith, Accounted, AccountedWith, Faithful;
      sent := Ask(work, id, qtype, d.data, d.answers, d.now);
      OneChanged(work);
      QueryIsSound(old(work.items), zones, id, qtype, d.data, sent);
      Begin(work, old(work.items.Keys), id);
    }

    method AdmitClient(client: Client, wishes: nat -> int) returns (work: DNSQueryWork)
      requires Good()
      modifies this`works, this`all, this`trace, connections, kernel
      ensures Good() && trace == old(trace) + if client in old(works) then [] else [Opened(client)]
      ensures client in works && work == works[client] && work.client == client
      ensures forall k <- works :: works[k].client == k
      ensures client in old(works) ==> works == old(works)
      ensures client !in old(works) ==> works == old(works)[client := work] && fresh(work) && work.items == map[]
      ensures Extends(old(connections.items), connections.items) && old(all) <= all && fresh(all - old(all))
    {
      hide Good, Steady, Queries, After, Extends;
      GoodMeans();
      ghost var queries := Queries();
      if client in works {
        work := Admit(client, wishes);
        OneClients(client);
      } else {
        work := Admit(client, wishes);
        OneClients(client);
        MarkOpened(zones, trace, queries, replies, client);
        trace := trace + [Opened(client)];
      }
      MeansGood();
    }

    lemma QueryTraced(before: map<Client, Work>, work: DNSQueryWork, data: seq<byte>, sent: seq<bool>)
      requires After(zones, trace) == Some(World(before, replies)) && |sent| == |zones|
      requires Live(work) && works.Keys == before.Keys
      requires forall i <- works :: i != work.client ==> works[i].items == before[i]
      requires Shaped(before[work.client], |zones|)
      requires work.items == AfterQuery(before[work.client], zones, PacketId(data), PacketType(data), data, sent)
      ensures After(zones, trace + [Happened(work.client, Query(data, sent))]) == Some(World(Queries(), replies))
    {
      hide AfterQuery, PacketId, PacketType;
      MarkQuery(zones, trace, before, replies, work.client, data, sent);
      hide After;
      assert Queries() == before[work.client := work.items];
    }

    method TakePacketQuery(work: DNSQueryWork, id: uint16, qtype: uint16, d: Datagram) returns (ghost sent: seq<bool>)
      requires Good() && Live(work) && id == PacketId(d.data) && qtype == PacketType(d.data)
      requires forall k <- works :: works[k].client == k
      modifies this`began, this`trace, work`lastTouch, work`items, all
      ensures Good() && trace == old(trace) + [Happened(work.client, Query(d.data, sent))]
      ensures |sent| == |zones| && Shaped(old(work.items), |zones|)
      ensures work.items == AfterQuery(old(work.items), zones, id, qtype, d.data, sent)
      ensures work.lastTouch == d.now
    {
      hide Good, Steady, Queries, After, AfterQuery, Shaped, PacketId, PacketType;
      GoodMeans();
      ghost var queries := Queries();
      sent := TakeQuery(work, id, qtype, d);
      QueryTraced(queries, work, d.data, sent);
      trace := trace + [Happened(work.client, Query(d.data, sent))];
      MeansGood();
    }

    /** A packet from a client: the queries of other clients are as they were. */
    method OnDatagram(d: Datagram) returns (ghost sent: seq<bool>)
      requires Good()
      modifies this`works, this`all, this`began, this`trace, connections, kernel, works.Values, all
      ensures Good() && |sent| == |zones| && old(all) <= all && fresh(all - old(all))
      ensures trace == old(trace) + PacketMark(d.client in old(works), d.client, d.data, sent)
      ensures works.Keys == old(works.Keys) + {d.client} && fresh(works.Values - old(works.Values))
      ensures forall k <- old(works) :: works[k] == old(works)[k] && (k != d.client ==> works[k].items == old(works[k].items))
      ensures var before := if d.client in old(works) then old(works[d.client].items) else map[];
                Shaped(before, |zones|) &&
                works[d.client].items == AfterQuery(before, zones, PacketId(d.data), PacketType(d.data), d.data, sent)
      ensures works[d.client].lastTouch == d.now
      ensures Extends(old(connections.items), connections.items)
    {
      hide Good, Steady, Queries, After, AfterQuery, Shaped, Extends, PacketId, PacketType;
      var work: DNSQueryWork := AdmitClient(d.client, d.wishes);
      var ok, id, flags, qtype := ParseRequestA(d.data);
      sent := TakePacketQuery(work, id, qtype, d);
    }

    /** What OnListenRead needs to know: no query is lost, and only the packet's client gets one. */
    method TakePacket(d: Datagram) returns (ghost sent: seq<bool>)
      requires Good()
      modifies this`works, this`all, this`began, this`trace, connections, kernel, works.Values, all
      ensures Good() && old(all) <= all && fresh(all - old(all)) && fresh(works.Values - old(works.Values))
      ensures forall k <- old(works) :: k in works && works[k] == old(works)[k]
      ensures TookOne(old(Queries()), Queries(), d)
      ensures trace == old(trace) + PacketMark(d.client in old(Queries()), d.client, d.data, sent)
      ensures Extends(old(connections.items), connections.items)
    {
      hide Good, Steady, After, TookOne, AfterQuery, Shaped, Extends, PacketMark;
      ghost var before := Queries();
      sent := OnDatagram(d);
      QueryTaken(before, Queries(), zones, d, sent);
    }

    /**
     Takes the packets that wait until it has read 64, none is left, or one is empty, which recvmsg
     reports like a failure. Each one read is taken for its client's transaction.
     */
    method OnListenRead(datagrams: seq<Datagram>) returns (read: nat, ghost sents: seq<seq<bool>>)
      requires Good()
      modifies this`works, this`all, this`began, this`trace, connections, kernel, works.Values, all
      ensures Good() && old(all) <= all && fresh(all - old(all)) && fresh(works.Values - old(works.Values))
      ensures forall k <- old(works) :: k in works && works[k] == old(works)[k]
      ensures read <= |datagrams| && ReadsUpTo(datagrams, read)
      ensures Arrived(old(Queries()), Queries(), old(trace), trace, datagrams[..read], sents)
      ensures Extends(old(connections.items), connections.items)
    {
      hide Good, Steady, After, Queries, TookOne, Arrived;
      read, sents := 0, [];
      ghost var queries, before := Queries(), trace;
      NothingArrived(queries, trace);
      while read < READ_PER_EVENT && read < |datagrams|
        invariant read <= READ_PER_EVENT && read <= |datagrams| && forall i :: 0 <= i < read ==> datagrams[i].data != []
        invariant Good() && old(all) <= all && fresh(all - old(all)) && fresh(works.Values - old(works.Values))
        invariant forall k <- old(works) :: k in works && works[k] == old(works)[k]
        invariant Arrived(queries, Queries(), before, trace, datagrams[..read], sents)
        invariant Extends(old(connections.items), connections.items)
        decreases |datagrams| - read
      {
        if |datagrams[read].data| == 0 {
          break;
        }
        ghost var now, soFar := Queries(), trace;
        ghost var sent := TakePacket(datagrams[read]);
        OneMoreArrived(queries, now, Queries(), before, soFar, trace, datagrams[..read], sents, datagrams[read], sent);
        assert datagrams[..read] + [datagrams[read]] == datagrams[..read + 1];
        read, sents := read + 1, sents + [sent];
      }
    }

    /** The replies the kernel took, and those that wait for it. */
    ghost function Outgoing(): seq<Letter>
      reads this`sent, this`sendQueue
    {
      sent + sendQueue
    }

    method SendTo(client: Client, data: seq<byte>, answer: Sending) returns (ok: bool)
      modifies this`sendQueue, this`sent
      ensures ok == !(old(sendQueue) == [] && answer == Refused)
      ensures Outgoing() == old(Outgoing()) + if ok then [(client, data)] else []
    {
      if |sendQueue| == 0 {
        if answer == Taken {
          sent := sent + [(client, data)];
          return true;
        }
        if answer != Busy {
          return false;
        }
      }
      assert sent + (sendQueue + [(client, data)]) == sent + sendQueue + [(client, data)];
      sendQueue := sendQueue + [(client, data)];
      return true;
    }

    method OnListenWrite(answers: nat -> Sending)
      modifies this`sendQueue, this`sent
      ensures sendQueue == Undrained(old(sendQueue), answers, 0)
      ensures sent == old(sent) + Drained(old(sendQueue), answers, 0)
    {
      ghost var queue := sendQueue;
      var i := 0;
      while |sendQueue| > 0
        invariant Undrained(sendQueue, answers, i) == Undrained(queue, answers, 0)
        invariant sent + Drained(sendQueue, answers, i) == old(sent) + Drained(queue, answers, 0)
        decreases |sendQueue|
      {
        var answer := answers(i);
        if answer == Busy {
          break;
        }
        if answer == Taken {
          sent := sent + [sendQueue[0]];
        }
        sendQueue := sendQueue[1..];
        i := i + 1;
      }
    }

    /** A transaction with nothing under way asks to be closed once the batch is over. */
    method DNSQureyWorkClose(client: Client)
      modifies this`idle
      ensures idle == old(idle) + {client}
    {
      idle := idle + {client};
    }

    method Hear(work: DNSQueryWork, k: nat, id: uint16, r: Upstream) returns (finish: Option<Finish>)
      requires Valid() && Live(work) && k < |zones|
      modifies work`items
      ensures Valid() && Shaped(old(work.items), |zones|)
      ensures (work.items, finish) == AfterAnswer(old(work.items), zones, k, id, r)
    {
      finish := work.DNSQueryResult(k, id, r);
      assert work.Registered(connections.items);
    }

    ghost method End(work: DNSQueryWork, ids: set<uint16>, finish: Option<Finish>)
      requires Live(work) && AccountedWith(work.client, ids)
      requires work.items.Keys == if finish.Some? then ids - {finish.value.id} else ids
      requires finish.Some? ==> finish.value.id in ids
      requires Faithful()
      modifies this`ended
      ensures Accounted() && Faithful()
      ensures finish.Some? ==> (work.client, finish.value.id) in ended
      ensures ended == old(ended) + if finish.Some? then multiset{(work.client, finish.value.id)} else multiset{}
    {
      if finish.Some? {
        ended := ended + multiset{(work.client, finish.value.id)};
      }
      assert forall i: uint16 :: UnderWay(work.client, i) <==> i in work.items.Keys;
    }

    /** The connection is one epoll may report: an open socket's. */
    ghost predicate Open(connect: DNSConnect)
      reads connections, connect
    {
      connect.fdSock in connections.items && connections.items[connect.fdSock] == connect
    }

    lemma OpenIsLive(connect: DNSConnect)
      requires Steady() && Open(connect)
      ensures Live(connect.owner) && connect.index < |zones| && connect.Valid() && connect.fdSock != -1
      ensures Shaped(connect.owner.items, |zones|) && connect in all
      ensures connect.owner.client in works && works[connect.owner.client] == connect.owner
      ensures forall k <- works :: works[k].client == k
    {
      var table, fd := connections.items, connect.fdSock;
      assert forall i <- table :: Live(table[i].owner);
      var work := works[table[fd].owner.client];
      assert work.Wired() && work.Registered(table);
      assert table[fd].owner == work;
      assert work.connects[table[fd].index] == connect;
    }

    method Settle(connect: DNSConnect, id: uint16, r: Upstream) returns (finish: Option<Finish>)
      requires Steady() && Open(connect) && r.data != [] && id == PacketId(r.data) && r == Received(r.data)
      modifies this`ended, connect.owner`items
      ensures Steady() && connect.index < |zones| && Shaped(old(connect.owner.items), |zones|)
      ensures (connect.owner.items, finish) == AfterAnswer(old(connect.owner.items), zones, connect.index, id, r)
      ensures finish.Some? ==> Safe(Ended(finish.value)) && (connect.owner.client, finish.value.id) in ended
    {
      hide Valid, ValidWith, Accounted, AccountedWith, Faithful;
      OpenIsLive(connect);
      var work := connect.owner;
      finish := Hear(work, connect.index, id, r);
      OneChanged(work);
      AnswerIsSound(old(work.items), zones, connect.index, r.data);
      End(work, old(work.items.Keys), finish);
    }

    /** What DNSQueryResult's winner becomes: a reply on its way to the client, if there is one to give. */
    method Deliver(client: Client, finish: Finish, answer: Sending)
      requires Steady() && Safe(Ended(finish)) && (client, finish.id) in ended
      modifies this`replies, this`sendQueue, this`sent
      ensures Steady()
      ensures replies == old(replies) + LetterOf(client, Some(finish))
      ensures Outgoing() == old(Outgoing()) + Posted(old(sendQueue), answer, LetterOf(client, Some(finish)))
    {
      if finish.reply.Some? {
        replies := replies + [(client, finish.reply.value)];
        var _ := SendTo(client, finish.reply.value, answer);
      }
    }

    method TakeAnswer(connect: DNSConnect, data: seq<byte>, answer: Sending) returns (finish: Option<Finish>)
      requires Steady() && Open(connect)
      modifies this`idle, this`ended, this`replies, this`sendQueue, this`sent, connect.owner`items
      ensures Steady()
      ensures data == [] ==> finish == None && connect.owner.items == old(connect.owner.items)
      ensures connect.index < |zones| && Shaped(old(connect.owner.items), |zones|)
      ensures data != [] ==>
                (connect.owner.items, finish)
                    == AfterAnswer(old(connect.owner.items), zones, connect.index, PacketId(data), Received(data))
      ensures idle == old(idle) + if finish.Some? && connect.owner.items == map[] then {connect.owner.client} else {}
      ensures replies == old(replies) + LetterOf(connect.owner.client, finish)
      ensures Outgoing() == old(Outgoing()) + Posted(old(sendQueue), answer, LetterOf(connect.owner.client, finish))
    {
      hide Valid, ValidWith, Accounted, Faithful;
      OpenIsLive(connect);
      if |data| == 0 {
        return None;
      }
      var ok, id, flags, qtype, found := ParseResponseA(data);
      var r := if ok then Upstream(true, qtype, flags, found, data) else Upstream(false, 0, 0, NO_ADDRESS, data);
      finish := Settle(connect, id, r);
      if finish.Some? {
        Deliver(connect.owner.client, finish.value, answer);
        if connect.owner.IsIdle() {
          DNSQureyWorkClose(connect.owner.client);
        }
      }
    }

    /** An upstream's datagram: at most one query, with the datagram's ID, is settled by it. */
    method Read(connect: DNSConnect, data: seq<byte>, answer: Sending) returns (finish: Option<Finish>)
      requires Good() && Open(connect)
      modifies this`idle, this`ended, this`replies, this`sendQueue, this`sent, this`trace, connect.owner`items
      ensures Good() && trace == old(trace) + [Happened(connect.owner.client, Answer(connect.index, data))]
      ensures data == [] ==> finish == None && connect.owner.items == old(connect.owner.items)
      ensures connect.index < |zones| && Shaped(old(connect.owner.items), |zones|)
      ensures data != [] ==>
                (connect.owner.items, finish)
                    == AfterAnswer(old(connect.owner.items), zones, connect.index, PacketId(data), Received(data))
      ensures idle == old(idle) + if finish.Some? && connect.owner.items == map[] then {connect.owner.client} else {}
      ensures idle == old(idle) + Emptied(connect.owner.client, old(connect.owner.items), connect.owner.items)
      ensures replies == old(replies) + LetterOf(connect.owner.client, finish)
      ensures Outgoing() == old(Outgoing()) + Posted(old(sendQueue), answer, LetterOf(connect.owner.client, finish))
      ensures old(sendQueue) != [] || answer != Refused ==> Outgoing() == old(Outgoing()) + LetterOf(connect.owner.client, finish)
    {
      hide Good, Steady, Queries, After, AfterAnswer, Received, LetterOf, Shaped, Open, Live;
      GoodMeans();
      OpenIsLive(connect);
      ghost var client, queries, letters := connect.owner.client, Queries(), replies;
      finish := TakeAnswer(connect, data, answer);
      EmptiedBySettling(client, old(connect.owner.items), zones, connect.index, data);
      OneClients(client);
      MarkAnswer(zones, trace, queries, letters, client, connect.index, data);
      trace := trace + [Happened(client, Answer(connect.index, data))];
      MeansGood();
    }

    method Unwatch(connect: DNSConnect)
      requires Valid() && connect.Valid()
      modifies connect`watched
      ensures Valid() && !connect.watched
    {
      connect.Disconnect();
    }

    method GiveUp(work: DNSQueryWork, k: nat)
      requires Valid() && Live(work) && k < |zones|
      modifies work`items
      ensures Valid() && Shaped(old(work.items), |zones|)
      ensures work.items == AfterDisconnect(old(work.items), |zones|, k)
    {
      work.DNSQueryDisconnect(k);
      assert work.Registered(connections.items);
    }

    method LoseUpstream(connect: DNSConnect)
      requires Steady() && Open(connect)
      modifies connect`watched, connect.owner`items
      ensures Steady() && connect.index < |zones| && Shaped(old(connect.owner.items), |zones|)
      ensures !connect.watched
      ensures connect.owner.items == AfterDisconnect(old(connect.owner.items), |zones|, connect.index)
    {
      hide Valid, ValidWith, Accounted, AccountedWith, Faithful;
      OpenIsLive(connect);
      Unwatch(connect);
      GiveUp(connect.owner, connect.index);
      OneChanged(connect.owner);
      DisconnectIsSound(old(connect.owner.items), |zones|, connect.index);
      SameQueries(connect.owner, old(connect.owner.items.Keys));
    }

    /** An upstream fails: its socket stays open, and no query of its client awaits it any more. */
    method Disconnect(connect: DNSConnect)
      requires Good() && Open(connect)
      modifies this`trace, connect`watched, connect.owner`items
      ensures Good() && trace == old(trace) + [Happened(connect.owner.client, Event.Disconnect(connect.index))]
      ensures connect.index < |zones| && Shaped(old(connect.owner.items), |zones|)
      ensures connect.Shown() == old(connect.Shown()).(watched := false)
      ensures Emptied(connect.owner.client, old(connect.owner.items), connect.owner.items) == {}
      ensures connect.owner.items == AfterDisconnect(old(connect.owner.items), |zones|, connect.index)
    {
      hide Good, Steady, Queries, After, AfterDisconnect, Shaped, Open, Live;
      GoodMeans();
      OpenIsLive(connect);
      ghost var client, queries := connect.owner.client, Queries();
      LoseUpstream(connect);
      SameKeys(old(connect.owner.items), |zones|, connect.index);
      OneClients(client);
      MarkDisconnect(zones, trace, queries, replies, client, connect.index);
      trace := trace + [Happened(client, Event.Disconnect(connect.index))];
      MeansGood();
    }

    lemma SameQueries(work: DNSQueryWork, ids: set<uint16>)
      requires Live(work) && AccountedWith(work.client, ids) && ids == work.items.Keys
      ensures Accounted()
    {
      assert forall i: uint16 :: UnderWay(work.client, i) <==> i in work.items.Keys;
    }

    method Write(connect: DNSConnect, answers: nat -> Sending)
      requires Good() && Open(connect)
      modifies connect`writeQueue, connect`forWrite, connect`sent
      ensures Good()
      ensures connect.writeQueue == Undrained(old(connect.writeQueue), answers, 0)
      ensures connect.sent == old(connect.sent) + Drained(old(connect.writeQueue), answers, 0)
    {
      hide After;
      OpenIsLive(connect);
      connect.Write(answers);
    }

    // ----- the event loop

    /**
     One event on an upstream's socket. A failure is given up, or else a datagram read, or else what is
     queued sent; each does what it does to the client's queries, and nothing besides.
     */
    method OnSocket(connect: DNSConnect, failed: bool, readable: bool, writable: bool, data: seq<byte>,
                    answers: nat -> Sending)
      returns (ghost letters: seq<Letter>)
      requires Good() && Open(connect)
      modifies this`idle, this`sendQueue, this`sent, this`replies, this`ended, this`trace
      modifies connect`watched, connect`writeQueue, connect`forWrite, connect`sent, connect.owner`items
      ensures Good() && trace == old(trace) + UpstreamMarks(connect.owner.client, connect.index, failed, readable, data)
      ensures idle == old(idle) + Emptied(connect.owner.client, old(connect.owner.items), connect.owner.items)
      ensures connect.Shown() == LineAfter(old(connect.Shown()), failed, readable, writable, answers)
      ensures replies == old(replies) + letters && Outgoing() == old(Outgoing()) + Posted(old(sendQueue), answers(0), letters)
    {
      OpenIsLive(connect);
      hide Good, Steady, Queries, After, AfterAnswer, AfterDisconnect, Received, Undrained, Drained, Shaped, LetterOf, Posted, Open,
           Emptied;
      letters := [];
      NothingPosted(sendQueue, answers(0));
      NothingEmptied(connect.owner.client, connect.owner.items);
      if failed {
        Disconnect(connect);
      } else if readable {
        var finish := Read(connect, data, answers(0));
        letters := LetterOf(connect.owner.client, finish);
      } else if writable {
        Write(connect, answers);
      }
    }

    method OnUpstream(fd: int, failed: bool, readable: bool, writable: bool, data: seq<byte>, answers: nat -> Sending)
      returns (ghost letters: seq<Letter>)
      requires Good() && fd in connections.items
      modifies this`idle, this`sendQueue, this`sent, this`replies, this`ended, this`trace, works.Values, all
      ensures Good()
      ensures var connect := connections.items[fd];
              && trace == old(trace) + UpstreamMarks(connect.owner.client, connect.index, failed, readable, data)
              && idle == old(idle) + Emptied(connect.owner.client, old(connect.owner.items), connect.owner.items)
              && connect.Shown() == LineAfter(old(connect.Shown()), failed, readable, writable, answers)
      ensures var connect := connections.items[fd];
              var client, k := connect.owner.client, connect.index;
              && (failed ==> trace == old(trace) + [Happened(client, Event.Disconnect(k))] && !connect.watched)
              && (!failed && readable ==> trace == old(trace) + [Happened(client, Answer(k, data))])
              && (!failed && !readable ==> trace == old(trace))
              && (!failed && !readable && writable ==> connect.writeQueue == Undrained(old(connect.writeQueue), answers, 0))
      ensures replies == old(replies) + letters && Outgoing() == old(Outgoing()) + Posted(old(sendQueue), answers(0), letters)
    {
      var connect := connections.items[fd];
      assert Open(connect);
      OpenIsLive(connect);
      hide Good, Steady, Queries, After, Emptied, Posted, Open, Undrained, Drained;
      letters := OnSocket(connect, failed, readable, writable, data, answers);
    }

    method OnListen(readable: bool, writable: bool, datagrams: seq<Datagram>, answers: nat -> Sending)
      returns (ghost marks: seq<Mark>)
      requires Good()
      modifies this`works, this`sendQueue, this`all, this`sent, this`began, this`trace, connections, kernel, works.Values, all
      ensures Good() && fresh(all - old(all)) && fresh(works.Values - old(works.Values))
      ensures forall k <- old(works) :: k in works && works[k] == old(works)[k]
      ensures Extends(old(connections.items), connections.items)
      ensures trace == old(trace) + marks
      ensures if readable then ListenCaused(old(works.Keys), datagrams, marks) else marks == []
      ensures sendQueue == if writable then Undrained(old(sendQueue), answers, 0) else old(sendQueue)
      ensures sent == old(sent) + if writable then Drained(old(sendQueue), answers, 0) else []
    {
      hide Good, Steady, After, Queries, Arrived, ReadsUpTo, ListenCaused, Undrained, Drained;
      marks := [];
      if readable {
        GoodMeans();
        ghost var read, sents;
        read, sents := OnListenRead(datagrams);
        marks := ListenCauses(old(Queries()), Queries(), old(trace), trace, datagrams, read, sents);
      }
      if writable {
        OnListenWrite(answers);
      }
    }

    /** One event; the server stops on a signal or when the listening socket fails. */
    method OnHappening(h: Happening) returns (stop: bool, ghost marks: seq<Mark>, ghost letters: seq<Letter>)
      requires Good()
      modifies this`works, this`idle, this`sendQueue, this`all, this`sent, this`replies, this`began, this`ended, this`trace
      modifies connections, kernel, works.Values, all
      ensures Good() && fresh(all - old(all)) && fresh(works.Values - old(works.Values))
      ensures forall k <- old(works) :: k in works && works[k] == old(works)[k]
      ensures Extends(old(connections.items), connections.items) && old(idle) <= idle
      ensures stop == (h.Quit? || (h.Listen? && !h.readable && !h.writable))
      ensures trace == old(trace) + marks && Caused(h, old(works.Keys), old(connections.items), marks)
      ensures h.Listen? ==> replies == old(replies) && idle == old(idle)
      ensures h.Listen? ==>
                && sendQueue == (if h.writable then Undrained(old(sendQueue), h.answers, 0) else old(sendQueue))
                && sent == old(sent) + if h.writable then Drained(old(sendQueue), h.answers, 0) else []
      ensures h.Quit? ==> sendQueue == old(sendQueue) && sent == old(sent)
      ensures h.Upstreams? && h.fd in old(connections.items) ==>
                var connect := old(connections.items)[h.fd];
                && connect.Shown() == LineAfter(old(connect.Shown()), h.failed, h.readable, h.writable, h.answers)
                && replies == old(replies) + letters && Outgoing() == old(Outgoing())
                    + Posted(old(sendQueue), h.answers(0), letters)
    {
      hide Good, Steady, After, Queries, ListenCaused, Undrained, Drained, UpstreamMarks, Emptied, LineAfter, Posted;
      stop, marks, letters := false, [], [];
      match h
      case Quit => stop := true;
      case Listen(readable, writable, datagrams, answers) =>
        marks := OnListen(readable, writable, datagrams, answers);
        stop := !readable && !writable;
      case Upstreams(fd, failed, readable, writable, data, answers) =>
        if fd in connections.items {
          ghost var connect := connections.items[fd];
          letters := OnUpstream(fd, failed, readable, writable, data, answers);
          marks := UpstreamMarks(connect.owner.client, connect.index, failed, readable, data);
        }
    }

    /**
     The events of a batch in order, as far as one that ends the server. Nothing is closed within it: each
     socket open at its start stays the same connection's.
     */
    method OnBatch(happenings: seq<Happening>) returns (stop: bool, ghost marks: seq<seq<Mark>>)
      requires Good()
      modifies this`works, this`idle, this`sendQueue, this`all, this`sent, this`replies, this`began, this`ended, this`trace
      modifies connections, kernel, works.Values, all
      ensures Good() && fresh(all - old(all)) && fresh(works.Values - old(works.Values))
      ensures forall k <- old(works) :: k in works && works[k] == old(works)[k]
      ensures Extends(old(connections.items), connections.items) && old(idle) <= idle
      ensures trace == old(trace) + Flat(marks) && Handled(happenings, marks, stop)
      ensures AllBring(happenings, old(connections.items), connections.items, marks)
    {
      hide Good, Steady, After, Queries, Extends, Caused, Flat, AllBring;
      NoMarks(happenings, connections.items);
      stop, marks := false, [];
      var i := 0;
      while i < |happenings| && !stop
        invariant Good() && fresh(all - old(all)) && fresh(works.Values - old(works.Values))
        invariant forall k <- old(works) :: k in works && works[k] == old(works)[k]
        invariant Extends(old(connections.items), connections.items) && old(idle) <= idle
        invariant trace == old(trace) + Flat(marks) && |marks| == i <= |happenings|
        invariant AllBring(happenings, old(connections.items), connections.items, marks)
        invariant forall j :: 0 <= j < i ==> Stops(happenings[j]) == (stop && j == i - 1)
        invariant stop ==> i > 0
        decreases |happenings| - i
      {
        ghost var open, table, more, letters := works.Keys, connections.items, [], [];
        stop, more, letters := OnHappening(happenings[i]);
        OneMoreBrought(happenings, old(connections.items), table, connections.items, open, marks, more);
        i, marks := i + 1, marks + [more];
      }
    }

    /** The stale transactions are looked for when a second has passed since that was last done. */
    method Clean(now: nat) returns (ghost closed: seq<Client>)
      requires Good()
      modifies this`works, this`dropped, this`trace, this`lastClean, connections, kernel, all
      ensures Good() && trace == old(trace) + Closings(closed)
      ensures if Elapsed(now, old(lastClean)) >= 1000
              then lastClean == now && works == old(works) - old(Stale(now)) && Stale(now) == {}
              else lastClean == old(lastClean) && works == old(works) && closed == []
    {
      hide Good, Steady, After, Queries, Stale, Closings;
      closed := [];
      if Elapsed(now, lastClean) >= CLEAN_INTERVAL {
        closed := ClearTimeout(now);
        lastClean := now;
      } else {
        NoClosings();
      }
    }

    /** A batch, and then the closing of the transactions that are idle and, once a second, of the stale ones. */
    method OneRound(batch: Batch) returns (stop: bool, ghost round: Round)
      requires Good()
      modifies this, connections, kernel, works.Values, all
      ensures Good() && fresh(all - old(all)) && fresh(works.Values - old(works.Values))
      ensures trace == old(trace) + MarksOf(round) && RoundOf(batch, round, stop)
      ensures !stop ==> idle == {}
      ensures lastClean == if !stop && Elapsed(batch.now, old(lastClean)) >= 1000 then batch.now else old(lastClean)
      ensures if !stop && Elapsed(batch.now, old(lastClean)) >= 1000 then Stale(batch.now) == {} else round.stale == []
    {
      hide Good, Steady, After, Queries, Closings, Extends, Handled, AllBring, Plausible, Quiet, Stale, Flat, Elapsed;
      ghost var marks, quiet, stale := [], [], [];
      ghost var table := connections.items;
      stop, marks := OnBatch(batch.happenings);
      AllPlausible(batch.happenings, table, connections.items, marks);
      if !stop {
        quiet := CloseIdle();
        stale := Clean(batch.now);
      }
      round := Round(marks, quiet, stale);
      NoClosings();
    }

    /**
     A whole run: the batches in order, each followed by the closing of idle and stale transactions. What
     it comes to is what its events come to, and however it ends, every socket is closed and every query
     that began was settled or closed with its transaction.
     */
    method Serve(batches: seq<Batch>) returns (ghost rounds: seq<Round>, ghost closed: seq<Client>)
      requires Good()
      modifies this, connections, kernel, works.Values, all
      ensures Good() && works == map[] && connections.items == map[] && kernel.open == {}
      ensures began == ended + dropped
      ensures trace == old(trace) + AllRounds(rounds) + Closings(closed) && After(zones, trace) == Some(World(map[], replies))
      ensures RoundsOf(batches, rounds)
    {
      hide Good, Steady, After, Queries, Closings, AllRounds, MarksOf, RoundsOf, RoundOf, RoundsSoFar;
      NoRounds(batches);
      rounds := [];
      var i, stop := 0, false;
      while i < |batches| && !stop
        invariant Good() && fresh(all - old(all)) && fresh(works.Values - old(works.Values))
        invariant trace == old(trace) + AllRounds(rounds) && |rounds| == i <= |batches|
        invariant RoundsSoFar(batches, rounds, stop)
        decreases |batches| - i
      {
        ghost var round;
        stop, round := OneRound(batches[i]);
        OneMoreRound(batches, rounds, round, stop);
        i, rounds := i + 1, rounds + [round];
      }
      RoundsDone(batches, rounds, stop);
      closed := ExitAndClear();
      AllEnded();
      NothingOpen();
    }

    lemma NothingOpen()
      requires Good() && works == map[]
      ensures After(zones, trace) == Some(World(map[], replies))
    {
      assert Queries() == map[];
    }

    lemma AllEnded()
      requires Good() && works == map[]
      ensures began == ended + dropped
    {
      hide After;
      forall x: (Client, uint16) ensures began[x] == ended[x] + dropped[x] {
        var (k, id) := x;
        assert !UnderWay(k, id);
      }
    }
  }
}
