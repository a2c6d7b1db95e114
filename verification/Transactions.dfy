/**
 The objects behind a running forwarder: one connection per zone and client (src/DNSConnect.cpp),
 one transaction per client (src/DNSQueryWork.cpp), and the table of upstream sockets they share.
 */
module Transactions {
  import opened Wrappers
  import opened Bytes
  import opened Rewriter
  import opened Verdict
  import opened QueryWork
  import opened QueryRuns

  /** A client's address, printed: the key its transaction is stored under. */
  type Client = string

  /** What the kernel makes of a send: taken, no room just now, or refused for good. */
  datatype Sending = Taken | Busy | Refused

  /** The kernel's table of open descriptors. */
  class Kernel {
    var open: set<int>

    constructor ()
      ensures open == {}
    {
      open := {};
    }

    /**
     A connected socket, or -1. The caller's wish stands for the kernel's choice: any unused
     descriptor, or failure when negative.
     */
    method Socket(wish: int) returns (fd: int)
      modifies this
      ensures fd == -1 <==> wish < 0
      ensures fd != -1 ==> fd >= 0 && fd !in old(open) && open == old(open) + {fd}
      ensures fd == -1 ==> open == old(open)
    {
      if wish < 0 {
        return -1;
      }
      fd := wish;
      ghost var above := open;
      while fd in open
        invariant wish <= fd && above <= open && forall n <- open :: n >= fd ==> n in above
        decreases |above|
      {
        above := above - {fd};
        fd := fd + 1;
      }
      open := open + {fd};
    }

    method Close(fd: int)
      modifies this
      ensures open == old(open) - {fd}
    {
      open := open - {fd};
    }
  }

  /** A table that refuses to overwrite an entry (src/MapManager.h). */
  class MapManager<K(==), V> {
    var items: map<K, V>

    constructor ()
      ensures items == map[]
    {
      items := map[];
    }

    method SaveItem(key: K, value: V) returns (ok: bool)
      modifies this
      ensures ok == (key !in old(items))
      ensures items == if ok then old(items)[key := value] else old(items)
    {
      if key in items {
        return false;
      }
      items := items[key := value];
      return true;
    }

    method DeleteItem(key: K) returns (ok: bool)
      modifies this
      ensures ok == (key in old(items)) && items == old(items) - {key}
    {
      ok := key in items;
      items := items - {key};
    }
  }

  // ----- a zone's upstream

  /** What is left of a send queue the kernel drains, answering once per datagram offered. */
  function Undrained<T>(queue: seq<T>, answers: nat -> Sending, i: nat): seq<T>
    decreases |queue|
  {
    if queue == [] || answers(i) == Busy then queue else Undrained(queue[1..], answers, i + 1)
  }

  /** What the kernel takes from it. */
  function Drained<T>(queue: seq<T>, answers: nat -> Sending, i: nat): seq<T>
    decreases |queue|
  {
    if queue == [] || answers(i) == Busy then []
    else (if answers(i) == Taken then [queue[0]] else []) + Drained(queue[1..], answers, i + 1)
  }

  /** Unless a datagram is refused, none is lost or reordered. */
  lemma {:induction false} DrainKeepsOrder<T>(queue: seq<T>, answers: nat -> Sending, i: nat)
    requires forall j :: i <= j ==> answers(j) != Refused
    ensures Drained(queue, answers, i) + Undrained(queue, answers, i) == queue
    decreases |queue|
  {
    if queue != [] && answers(i) != Busy {
      DrainKeepsOrder(queue[1..], answers, i + 1);
      assert [queue[0]] + (Drained(queue[1..], answers, i + 1) + Undrained(queue[1..], answers, i + 1)) == queue;
    }
  }

  /** Those of the first n datagrams that the kernel takes. */
  function Picked<T>(queue: seq<T>, answers: nat -> Sending, i: nat, n: nat): seq<T>
    requires n <= |queue|
  {
    if n == 0 then []
    else Picked(queue, answers, i, n - 1) + if answers(i + n - 1) == Taken then [queue[n - 1]] else []
  }

  lemma {:induction false} PickedLater<T>(queue: seq<T>, answers: nat -> Sending, i: nat, n: nat)
    requires n < |queue|
    ensures Picked(queue, answers, i, n + 1)
         == (if answers(i) == Taken then [queue[0]] else []) + Picked(queue[1..], answers, i + 1, n)
  {
    if n > 0 {
      PickedLater(queue, answers, i, n - 1);
    }
  }

  /** The kernel is offered the queue up to where it is busy: what it takes of that has left, and only the rest stays. */
  lemma {:induction false} DrainsExactly<T>(queue: seq<T>, answers: nat -> Sending, i: nat) returns (n: nat)
    ensures n <= |queue| && (forall j :: i <= j < i + n ==> answers(j) != Busy) && (n < |queue| ==> answers(i + n) == Busy)
    ensures Undrained(queue, answers, i) == queue[n..] && Drained(queue, answers, i) == Picked(queue, answers, i, n)
    decreases |queue|
  {
    n := 0;
    if queue != [] && answers(i) != Busy {
      var m := DrainsExactly(queue[1..], answers, i + 1);
      PickedLater(queue, answers, i, m);
      n := m + 1;
    }
  }

  /** A connection as the kernel and its queue show it. */
  datatype Line = Line(watched: bool, queue: seq<seq<byte>>, sent: seq<seq<byte>>)

  /** After an event on its socket: of the three conditions the first that holds counts. */
  function LineAfter(line: Line, failed: bool, readable: bool, writable: bool, answers: nat -> Sending): Line {
    if failed then line.(watched := false)
    else if readable || !writable then line
    else line.(queue := Undrained(line.queue, answers, 0), sent := line.sent + Drained(line.queue, answers, 0))
  }

  class DNSConnect {
    const owner: DNSQueryWork
    const index: nat
    var fdSock: int
    var writeQueue: seq<seq<byte>>
    var watched: bool   // epoll reports the socket's events,
    var forWrite: bool  // and when it can be written
    ghost var sent: seq<seq<byte>>

    /** A watched socket waits to be written exactly when something is queued for it. */
    ghost predicate Valid()
      reads this
    {
      watched ==> fdSock != -1 && forWrite == (writeQueue != [])
    }

    /** Every datagram accepted so far, but for those refused while queued. */
    ghost function Handed(): seq<seq<byte>>
      reads this
    {
      sent + writeQueue
    }

    ghost function Shown(): Line
      reads this
    {
      Line(watched, writeQueue, sent)
    }

    constructor (owner: DNSQueryWork, index: nat, fdSock: int)
      ensures this.owner == owner && this.index == index && this.fdSock == fdSock
      ensures Valid() && writeQueue == [] && sent == [] && watched == (fdSock != -1)
    {
      this.owner, this.index, this.fdSock := owner, index, fdSock;
      writeQueue, sent, watched, forWrite := [], [], fdSock != -1, false;
    }

    method UpdateEvents()
      modifies this`forWrite
      ensures watched ==> forWrite == (writeQueue != [])
    {
      if watched {
        forWrite := |writeQueue| > 0;
      }
    }

    /** Sends or queues a query; what is handed over leaves in the order it came. */
    method SendDNSQueryBuffer(data: seq<byte>, answer: Sending) returns (ok: bool)
      requires Valid()
      modifies this`writeQueue, this`forWrite, this`sent
      ensures Valid()
      ensures ok == (fdSock != -1 && !(old(writeQueue) == [] && answer == Refused))
      ensures Handed() == if ok then old(Handed()) + [data] else old(Handed())
    {
      if fdSock == -1 {
        return false;
      }
      if |writeQueue| == 0 {
        if answer == Taken {
          sent := sent + [data];
          return true;
        }
        if answer != Busy {
          return false;
        }
      }
      assert sent + (writeQueue + [data]) == sent + writeQueue + [data];
      writeQueue := writeQueue + [data];
      UpdateEvents();
      return true;
    }

    method Write(answers: nat -> Sending)
      requires Valid() && fdSock != -1
      modifies this`writeQueue, this`forWrite, this`sent
      ensures Valid()
      ensures writeQueue == Undrained(old(writeQueue), answers, 0)
      ensures sent == old(sent) + Drained(old(writeQueue), answers, 0)
    {
      ghost var queue := writeQueue;
      var i := 0;
      while |writeQueue| > 0
        invariant Undrained(writeQueue, answers, i) == Undrained(queue, answers, 0)
        invariant sent + Drained(writeQueue, answers, i) == old(sent) + Drained(queue, answers, 0)
        decreases |writeQueue|
      {
        var answer := answers(i);
        if answer == Busy {
          break;
        }
        if answer == Taken {
          sent := sent + [writeQueue[0]];
        }
        writeQueue := writeQueue[1..];
        i := i + 1;
      }
      UpdateEvents();
    }

    /** The socket reported an error: it is not watched any more, but stays open. */
    method Disconnect()
      requires Valid()
      modifies this`watched
      ensures Valid() && !watched
    {
      watched := false;
    }

    method Exit(kernel: Kernel)
      requires Valid()
      modifies this`fdSock, this`watched, kernel
      ensures Valid() && fdSock == -1 && !watched
      ensures kernel.open == old(kernel.open) - if old(fdSock) == -1 then {} else {old(fdSock)}
    {
      if fdSock != -1 {
        watched := false;
        kernel.Close(fdSock);
        fdSock := -1;
      }
    }
  }

  // ----- a client's transaction

  function Without(table: map<int, DNSConnect>, owner: DNSQueryWork): map<int, DNSConnect> {
    map fd | fd in table && table[fd].owner != owner :: table[fd]
  }

  /** The table once the first n connections of owner are closed. */
  function WithoutFirst(table: map<int, DNSConnect>, owner: DNSQueryWork, n: nat): map<int, DNSConnect> {
    map fd | fd in table && !(table[fd].owner == owner && table[fd].index < n) :: table[fd]
  }

  lemma CloseNext(table: map<int, DNSConnect>, owner: DNSQueryWork, n: nat, fd: int)
    requires forall f <- table :: table[f].owner == owner && table[f].index == n ==> f == fd
    requires fd in table ==> table[fd].owner == owner && table[fd].index == n
    ensures WithoutFirst(table, owner, n + 1) == WithoutFirst(table, owner, n) - {fd}
  {
    var next, now := WithoutFirst(table, owner, n + 1), WithoutFirst(table, owner, n);
    forall f ensures f in next <==> f in now - {fd} {
      if f in table && table[f].owner == owner {
        assert f == fd <==> table[f].index == n;
      }
    }
  }

  lemma AllClosed(table: map<int, DNSConnect>, owner: DNSQueryWork, n: nat)
    requires forall f <- table :: table[f].owner == owner ==> table[f].index < n
    ensures WithoutFirst(table, owner, n) == Without(table, owner)
  {
    forall f ensures f in WithoutFirst(table, owner, n) <==> f in Without(table, owner) {
      if f in table && table[f].owner == owner {
        assert table[f].index < n;
      }
    }
  }

  lemma SlotsAreNew(zones: seq<Zone>, qtype: uint16, sent: seq<bool>, slots: seq<Slot>)
    requires |sent| == |slots| == |zones|
    requires forall j :: 0 <= j < |zones| ==>
               slots[j] == Slot(if j != 0 && !TakesPart(zones[j], qtype) then NotMatch else if !sent[j] then Error else Wait, [])
    ensures slots == NewSlots(zones, qtype, sent)
  {
  }

  class DNSQueryWork {
    const client: Client
    const zones: seq<Zone>
    var lastTouch: nat
    var connects: seq<DNSConnect>
    var items: Work

    /** One connection for each zone, its own. */
    ghost predicate Wired()
      reads this, connects
    {
      && |connects| == |zones| && Shaped(items, |zones|)
      && forall i :: 0 <= i < |connects| ==> connects[i].owner == this && connects[i].index == i && connects[i].Valid()
    }

    predicate IsIdle()
      reads this
    {
      items == map[]
    }

    constructor (client: Client, zones: seq<Zone>)
      ensures this.client == client && this.zones == zones
      ensures lastTouch == 0 && connects == [] && items == map[]
    {
      this.client, this.zones := client, zones;
      lastTouch, connects, items := 0, [], map[];
    }

    /** Its sockets are the entries it owns in the table. */
    ghost predicate Registered(table: map<int, DNSConnect>)
      requires Wired()
      reads this, connects
    {
      && -1 !in table
      && (forall i :: 0 <= i < |connects| && connects[i].fdSock != -1 ==>
            connects[i].fdSock in table && table[connects[i].fdSock] == connects[i])
      && (forall fd <- table :: table[fd].owner == this ==>
            table[fd].index < |connects| && connects[table[fd].index] == table[fd] && table[fd].fdSock == fd)
    }

    /**
     Opens the upstream sockets. As the kernel hands out unused descriptors only, none is in the
     table yet: this never fails.
     */
    method Init(table: MapManager<int, DNSConnect>, kernel: Kernel, wishes: nat -> int) returns (ok: bool)
      requires connects == [] && Shaped(items, |zones|) && kernel.open == table.items.Keys
      requires -1 !in table.items && forall fd <- table.items :: table.items[fd].owner != this
      modifies this`connects, table, kernel
      ensures ok && Wired() && fresh(connects) && Registered(table.items)
      ensures forall i :: 0 <= i < |zones| ==> (connects[i].fdSock == -1 <==> wishes(i) < 0)
      ensures kernel.open == table.items.Keys
      ensures Without(table.items, this) == old(table.items)
    {
      hide Shaped;
      for i := 0 to |zones|
        invariant |connects| == i && fresh(connects) && kernel.open == table.items.Keys && -1 !in kernel.open
        invariant forall j :: 0 <= j < i ==> connects[j].owner == this && connects[j].index == j && connects[j].Valid()
        invariant forall j :: 0 <= j < i ==> (connects[j].fdSock == -1 <==> wishes(j) < 0)
        invariant forall j :: 0 <= j < i && connects[j].fdSock != -1 ==>
                    connects[j].fdSock in table.items && table.items[connects[j].fdSock] == connects[j]
        invariant forall fd <- table.items :: table.items[fd].owner == this ==>
                    table.items[fd].index < i && connects[table.items[fd].index] == table.items[fd] && table.items[fd].fdSock == fd
        invariant Without(table.items, this) == old(table.items)
      {
        var fd := kernel.Socket(wishes(i));
        var connect := new DNSConnect(this, i, fd);
        if fd != -1 {
          var saved := table.SaveItem(fd, connect);
          assert saved;
        }
        connects := connects + [connect];
      }
      ok := true;
    }

    /** Closes the sockets it owns, and no other. */
    method Exit(table: MapManager<int, DNSConnect>, kernel: Kernel)
      requires Wired() && Registered(table.items) && kernel.open == table.items.Keys
      modifies table, kernel, connects
      ensures table.items == Without(old(table.items), this)
      ensures kernel.open == table.items.Keys
      ensures Wired() && forall i :: 0 <= i < |connects| ==> connects[i].fdSock == -1
    {
      for i := 0 to |connects|
        invariant forall j :: 0 <= j < |connects| ==> connects[j].Valid()
        invariant forall j :: 0 <= j < |connects| ==> connects[j].fdSock == if j < i then -1 else old(connects[j].fdSock)
        invariant kernel.open == table.items.Keys
        invariant table.items == WithoutFirst(old(table.items), this, i)
      {
        CloseNext(old(table.items), this, i, old(connects[i].fdSock));
        if connects[i].fdSock != -1 {
          var deleted := table.DeleteItem(connects[i].fdSock);
        }
        connects[i].Exit(kernel);
      }
      AllClosed(old(table.items), this, |connects|);
    }

    /** The query goes to exactly the zones that are awaited afterwards. */
    method ServerNewWork(id: uint16, qtype: uint16, data: seq<byte>, answers: nat -> Sending, now: nat)
      returns (ghost sent: seq<bool>)
      requires Wired()
      modifies this`lastTouch, this`items, connects
      ensures Wired() && lastTouch == now && |sent| == |zones|
      ensures items == AfterQuery(old(items), zones, id, qtype, data, sent)
      ensures forall i :: 0 <= i < |zones| ==> connects[i].fdSock == old(connects[i].fdSock)
      ensures |data| >= 2 ==> id in items && forall i :: 0 <= i < |zones| ==>
                connects[i].Handed() == old(connects[i].Handed()) + if items[id].slots[i].state == Wait then [data] else []
      ensures |data| < 2 ==> forall i :: 0 <= i < |zones| ==> connects[i].Handed() == old(connects[i].Handed())
    {
      lastTouch := now;
      sent := seq(|zones|, i => false);
      if |data| < 2 {
        return;
      }
      if id in items {
        var item;
        item, sent := Resend(items[id], data, answers);
        items := items[id := item];
      } else {
        var item;
        item, sent := Create(qtype, data, answers);
        items := items[id := item];
      }
    }

    method Resend(item: WorkItem, data: seq<byte>, answers: nat -> Sending) returns (next: WorkItem,
            ghost sent: seq<bool>)
      requires Wired() && |item.slots| == |zones|
      modifies connects
      ensures Wired() && |sent| == |zones| && next == Resent(item, sent)
      ensures forall i :: 0 <= i < |zones| ==> connects[i].fdSock == old(connects[i].fdSock)
      ensures forall i :: 0 <= i < |zones| ==>
                connects[i].Handed() == old(connects[i].Handed()) + if next.slots[i].state == Wait then [data] else []
    {
      sent := [];
      var slots := item.slots;
      for i := 0 to |connects|
        invariant |sent| == i && |slots| == |item.slots|
        invariant forall j :: 0 <= j < |slots| ==>
                    slots[j] == if j < i && item.slots[j].state == Wait && !sent[j] then item.slots[j].(state := Error) else item.slots[j]
        invariant forall j :: 0 <= j < |connects| ==> connects[j].Valid() && connects[j].fdSock == old(connects[j].fdSock)
        invariant forall j :: 0 <= j < |connects| ==>
                    connects[j].Handed() == old(connects[j].Handed()) + if j < i && slots[j].state == Wait then [data] else []
      {
        var ok := true;
        if item.slots[i].state == Wait {
          ok := connects[i].SendDNSQueryBuffer(data, answers(i));
          if !ok {
            slots := slots[i := slots[i].(state := Error)];
          }
        }
        sent := sent + [ok];
      }
      next := item.(slots := slots);
      assert slots == Resent(item, sent).slots;
    }

    method Create(qtype: uint16, data: seq<byte>, answers: nat -> Sending) returns (next: WorkItem,
            ghost sent: seq<bool>)
      requires Wired()
      modifies connects
      ensures Wired() && |sent| == |zones| && next == WorkItem(qtype, 0, NewSlots(zones, qtype, sent))
      ensures forall i :: 0 <= i < |zones| ==> connects[i].fdSock == old(connects[i].fdSock)
      ensures forall i :: 0 <= i < |zones| ==>
                connects[i].Handed() == old(connects[i].Handed()) + if next.slots[i].state == Wait then [data] else []
    {
      hide TakesPart, NewSlots;
      sent := [];
      var slots: seq<Slot> := [];
      for i := 0 to |connects|
        invariant |sent| == |slots| == i
        invariant forall j :: 0 <= j < i ==>
                    slots[j] == Slot(if j != 0 && !TakesPart(zones[j], qtype) then NotMatch else if !sent[j] then Error else Wait, [])
        invariant forall j :: 0 <= j < |connects| ==> connects[j].Valid() && connects[j].fdSock == old(connects[j].fdSock)
        invariant forall j :: 0 <= j < |connects| ==>
                    connects[j].Handed() == old(connects[j].Handed()) + if j < i && slots[j].state == Wait then [data] else []
      {
        var state, ok := Wait, true;
        if i != 0 && !TakesPart(zones[i], qtype) {
          state := NotMatch;
        } else {
          ok := connects[i].SendDNSQueryBuffer(data, answers(i));
          if !ok {
            state := Error;
          }
        }
        slots := slots + [Slot(state, [])];
        sent := sent + [ok];
      }
      next := WorkItem(qtype, 0, slots);
      SlotsAreNew(zones, qtype, sent, slots);
    }

    method DNSQueryDisconnect(k: nat)
      requires Shaped(items, |zones|) && k < |zones|
      modifies this`items
      ensures items == AfterDisconnect(old(items), |zones|, k)
    {
      var left := items.Keys;
      while left != {}
        invariant left <= items.Keys == old(items.Keys) && Shaped(items, |zones|)
        invariant forall id <- items :: items[id] == if id in left then old(items)[id] else GivenUp(old(items)[id], k)
        decreases |left|
      {
        var id :| id in left;
        left := left - {id};
        if items[id].slots[k].state == Wait {
          items := items[id := GivenUp(items[id], k)];
        }
      }
    }

    method DNSQueryResult(k: nat, id: uint16, r: Upstream) returns (finish: Option<Finish>)
      requires Shaped(items, |zones|) && k < |zones|
      modifies this`items
      ensures (items, finish) == AfterAnswer(old(items), zones, k, id, r)
    {
      if id !in items {
        return None;
      }
      var item := items[id];
      var state := JudgeResponse(zones[k], item.qtype, r);
      item := Stored(item, k, Slot(state, r.data));
      var i := item.done;
      while i < |item.slots|
        invariant item.done <= i <= |item.slots|
        invariant Scan(item.slots, i) == Scan(item.slots, item.done)
      {
        if item.slots[i].state == Wait {
          items := items[id := item.(done := i)];
          return None;
        }
        if item.slots[i].state == Match {
          var reply := SendResult(i, item.qtype, item.slots[i].data);
          items := items - {id};
          return Some(Finish(id, reply));
        }
        i := i + 1;
      }
      var reply := None;
      if item.slots[0].state == NotMatch {
        reply := SendResult(0, item.qtype, item.slots[0].data);
      }
      items := items - {id};
      return Some(Finish(id, reply));
    }

    /** What the client is sent, if anything. */
    method SendResult(i: nat, qtype: uint16, data: seq<byte>) returns (reply: Option<seq<byte>>)
      requires i < |zones|
      ensures reply == Reply(zones[i], qtype, data)
    {
      if !zones[i].drop.v4 && !zones[i].drop.v6 {
        return Some(data);
      }
      var ok, o := DropAddress(data, qtype, zones[i].drop);
      return if ok then Some(o) else None;
    }
  }
}
