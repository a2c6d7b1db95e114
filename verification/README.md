# A model of the DNS forwarder

The forwarder sends each client's query to several upstream zones, judges the answers by the
addresses in them, and passes one answer on, some addresses dropped from it. This project models
the parts of it that carry state or arithmetic, and proves what they keep.

* **Packets** (`src/Rfc1035.cpp`, `src/AutoBuffer.h`): `AutoBuffer.dfy`, `Parser.dfy` and
  `Rewriter.dfy` hold the cursor, the parsers and `DropAddress`, each loop proved against a function
  of the bytes. `Relocation.dfy` has the arithmetic of removed ranges and moved pointers;
  `Hints.dfy` the hints a rewrite removes and `Content.dfy` what it writes, byte for byte, and where
  it stops; `Copies.dfy`, `Pointers.dfy`, `RewriteTwice.dfy`, `InTurn.dfy` and `Composition.dfy` the
  rewrite applied twice, and `Straddling.dfy` a packet on which that is not one rewrite;
  `Decoder.dfy` a decoder written apart from the forwarder's parsers (sections 4.1.1 to 4.1.4 of
  RFC 1035, section 2.2 of RFC 9460), `Decodable.dfy` what it decodes, and `Meaning.dfy` the proof
  that the rewrite keeps that; `Agreement.dfy` relates the rewriter to the forwarder's own parser.
  `AddressesFound.dfy` and `Dropping.dfy` say, with the types and keys of the standards written out
  and through that decoder, which addresses the parser finds and what `DropAddress` makes of a packet.
* **Queries** (`src/DNSQueryWork.cpp`): `Verdict.dfy` judges one zone's response, `QueryWork.dfy` is
  one query and its cached index, `QueryRuns.dfy` the queries of a client over whole runs,
  `Delivery.dfy` what its replies are made of, and `Interleavings.dfy` one query's answers among
  everything else that happens.
* **Transactions and sockets** (`src/DNSQueryWork.cpp`, `src/DNSConnect.cpp`, `src/WorkManager.cpp`,
  `src/Server.cpp`): `Transactions.dfy` has the connection and transaction objects, `Server.dfy` the
  server object with its two tables and the event loop, and `ServerRuns.dfy` the machine of
  openings, events and closings that this object refines.
* **Address lists** (`src/ConfigType.h`, `src/ConfigType.cpp`): `Bits.dfy` and `Cidr.dfy` for masks
  and prefix blocks, `AddressLists.dfy` for the binary search and the lists of a zone.
* **JSON** (`src/cJSON.cpp`): `JsonStrings.dfy` for strings, `Json.dfy` for trees, `JsonBuffers.dfy`
  for the loops, `JsonRoundTrip.dfy` for the round trip.

Bytes are integers below 256 and 16-bit and 32-bit numbers subset types; where C++ cuts, wraps or
masks, the model says so (`PutPointer`, `PutU16`, `MaskOf`, `Elapsed`, `WriteU16`). The kernel is a
parameter: a wish picks the unused descriptor a socket gets, or its failure; every send is taken,
put off or refused as the caller of the model likes; the clock is an argument. Each loop of the
modelled code is a method with its loop; objects that change are classes.

What the proofs show to depend on a condition:

* A zone that answers a query twice can cost the client its reply: a match that lands below the
  cached index is passed over (`QueryWork.RepeatedAnswerLosesReply`). `QueryWork.CacheMissesExactly`
  and `QueryWork.ReplyIsPromisedExactly` say exactly when.
* The address search can be wrong on lists with an entry strictly inside another
  (`AddressLists.NestedEntryHidesOuter`); `AddressLists.SearchIsExactWhen` says exactly for which
  addresses, `AddressLists.ListIsExactWhen` exactly on which lists.
* A pointer into the inside of a removed parameter, even one that leads back, moves too far
  (`Relocation.StraddledLandsTooLow`, `Relocation.OutOfOrderExactlyInside`). Repeating a call is
  still harmless, but dropping one family after the other then need not equal dropping both
  (`Straddling.DroppingInTurnDiffers`). `Composition.RewritesComposeExactly` says exactly when it
  does, by a condition on the packet (`InTurn.InTurnIsAtOnce`): the two relocations of each copied
  pointer must add up to the one. They do when no copied pointer leads into a removed hint, as when
  names point to labels (`Meaning.WellPointedComposes`).
* A tree nested deeper than 1000 prints, and its print does not parse
  (`JsonRoundTrip.ParsedUndoesPrinted`).

Where code and comments differ the model follows the code: the comment on `CopyName` says that
pointers only point back, but nothing in the code looks, so the theorems that need it say it.

## Model

| member | source | states |
|---|---|---|
| Meaning.RewriteKeepsMeaning | src/Rfc1035.cpp:251-332 | Meaning preservation against a separate decoder that expands compressed names: if the compressed names of a rewritten response point back to labels of names that are kept, and the name of a CNAME record fills its RDATA, the input's kept answers decode, and the output decodes to the same ID, flags and question and to those answers with the same owner, type, class, TTL, priority and target; records of the queried type lose exactly the dropped families' hints, in order; no other record is announced |
| Decodable.DecodesExactly | src/Rfc1035.cpp:277-326 | Of a rewritten response whose names point back, the kept answers decode if and only if each CNAME among those of another type has a name that ends where its RDATA ends |
| Dropping.DroppedBecomes | src/Rfc1035.cpp:251-332 | For every packet, query type and choice of families. A (1) with IPv4 dropped and AAAA (28) with IPv6 dropped: exactly the header with counts cleared and the question are left, no address is found and the question decodes alike, or failure exactly without a question. SVCB and HTTPS (64, 65): the leading answers are left, their addresses and, where names point back, their decoded meaning being those of the input less the ipv4hint (4) or ipv6hint (6) of the dropped families, with neither dropped the answers byte for byte. Anything else: untouched |
| Dropping.RewritesExactly | src/Rfc1035.cpp:273-325 | An SVCB/HTTPS rewrite succeeds if and only if the packet has a question and its answers are well formed, those of the queried type with their names and parameters, as far as the first of another type behind a dropped hint |
| Meaning.EmptyKeepsQuestion | src/Rfc1035.cpp:239-270 | When the address family an A or AAAA query asks for is dropped, the reply decodes to the same ID, flags and question, with no record announced or left |
| Meaning.ExpandsAlike | src/Rfc1035.cpp:178-213 | Simulation: every known label start, followed in the output from where it moved to, through any chain of pointers, expands to the labels it has in the input |
| Meaning.CarriedName | src/Rfc1035.cpp:178-213 | Copying one more name keeps every known label start readable at its moved offset and adds the new name's own |
| Meaning.RecordCarried | src/Rfc1035.cpp:277-326 | One round of the rewriting loop, removals included, on names that point back: every label start known so far, and the new record's, reads back in the output from where it moved to; the output is as long as the consumed input less the removed ranges |
| Content.RewriteKeepsBytes | src/Rfc1035.cpp:273-331 | Every successful rewrite, wherever its pointers lead: the removed ranges are exactly the dropped families' hints in the first records, as many as are announced; every other byte of the question and these records comes out, as much nearer as removed ranges lie before it, but for the pointers of owner and target names and the RDLENGTH fields; ID and flags stay, the counts become the number kept, 0 and 0; the output is as long as that |
| Content.ComesFrom | src/Rfc1035.cpp:197-201 | And nothing else comes out: every offset of the output is the place of a byte that was not removed |
| Content.AnswerCarries | src/Rfc1035.cpp:288-325 | One copied record: the record less exactly its dropped hints, byte for byte but for its two pointers and its length |
| Content.StopsExactly | src/Rfc1035.cpp:280-286 | The pass keeps fewer answers than announced if and only if some announced record is of another type and comes behind a record of the queried type with a dropped hint; it then stops at the first such record |
| Meaning.WellPointedComposes | src/Rfc1035.cpp:277-331 | On such responses, dropping one family and then another succeeds and gives the bytes that dropping both at once gives |
| Composition.DropAddressIdempotent | src/Rfc1035.cpp:251-332 | On every packet, of every query type: where DropAddress succeeds, a second call with the same arguments succeeds and changes no byte |
| Composition.RewritesComposeExactly | src/Rfc1035.cpp:277-331 | Two SVCB/HTTPS rewrites in a row: when the first succeeds, so do the second and the one that drops both families, with outputs as long; the outputs are equal if and only if, at every pointer that all three passes copy, the ranges removed before its target by the first and then before where 14 bits leave it by the second add up, modulo 0x4000, to those removed at once; the condition is computed from the packet alone, and holds when no copied pointer leads inside a removed hint or the second call drops nothing new |
| Composition.DropAddressComposes | src/Rfc1035.cpp:251-332 | Two calls in a row come to one call with both families, for every query type, if and only if that holds or the query is not SVCB or HTTPS |
| Composition.RewriteTwiceIsRewriteBoth | src/Rfc1035.cpp:277-331 | So two SVCB/HTTPS rewrites come to one, the cut-off point and relocated pointers included, when no pointer copied by the first leads inside a hint it removed, or the second drops nothing new |
| RewriteTwice.ComposesExactly | src/Rfc1035.cpp:197-204 | A pointer relocated twice, cut to 14 bits in between, has the bytes of the pointer relocated once exactly when that congruence holds at its target |
| RewriteTwice.NameTwice | src/Rfc1035.cpp:178-213 | A name copied twice ends where, and is as long as, the name copied once, and has the same bytes exactly when its pointer meets that condition |
| InTurn.RemovedAfter | src/Rfc1035.cpp:303-321 | What the second rewrite removes from a record, and where, can be read off the input: the hints of its families among those the first leaves |
| Straddling.DroppingInTurnDiffers | src/Rfc1035.cpp:197-201 | A concrete packet whose second owner name points back into the middle of a removed hint: dropping IPv4 and then IPv6 leaves that pointer at 24, dropping both at once at 4, and the condition fails |
| Straddling.PacketRewrites | src/Rfc1035.cpp:273-331 | The whole output, byte for byte, for a family of two-record packets, whatever parameters the first record keeps and wherever the second's name points |
| Agreement.ParserAgreesWithRewriter | src/Rfc1035.cpp:25-163 | If ParseResponseA accepts an SVCB/HTTPS response that DropAddress rewrites, it accepts the result and finds the same question and exactly the addresses of the kept answers, less the dropped families' hints of the queried type |
| Agreement.CopiedNameSkips | src/Rfc1035.cpp:421-451 | A name CopyName copies, SkipBufferName skips, to the same end offset |
| Agreement.DropKeepsId | src/Rfc1035.cpp:251-332 | Whatever DropAddress lets through is not empty, no longer than the packet, and keeps the packet's ID |
| Relocation.RewrittenLength | src/Rfc1035.cpp:288-331 | The output of a rewrite is as long as the consumed prefix less the sum of the removed lengths |
| Relocation.CopiedAnswerLengths | src/Rfc1035.cpp:288-325 | The RDLENGTH patched into a copied record is exactly the length of its RDATA, never cut by its 16 bits, and the record is its input less the removed bytes |
| Relocation.RelocationFits | src/Rfc1035.cpp:197-204 | A pointer target that no removed range has inside relocates without underflow to an offset that fits its 14 bits again |
| Relocation.MovedInOrder | src/Rfc1035.cpp:197-201 | Relocation keeps the order of offsets that lie in no removed range, strictly so from kept bytes |
| Relocation.OutOfOrderExactlyInside | src/Rfc1035.cpp:197-201 | A relocated offset is out of order with the removed ranges below it exactly when one of them has it strictly inside |
| Relocation.RewriteKeepsQuestion | src/Rfc1035.cpp:273-331 | Header ID and flags, and the question, come out byte for byte; the answer count is the number of records kept |
| Rewriter.DropAddress | src/Rfc1035.cpp:251-332 | The loops compute the specification function Dropped, which Dropping.DroppedBecomes pins down, over all query types; when it fails, the buffer is untouched |
| Rewriter.CopyName | src/Rfc1035.cpp:178-213 | The copied bytes, the cursor behind the name, and failure, as the specification of relocated names says |
| Rewriter.CopyParams | src/Rfc1035.cpp:308-321 | The inner loop appends exactly the kept SvcParams and records exactly the removed ranges; fails on a parameter that does not fit |
| Rewriter.CopyAnswer | src/Rfc1035.cpp:277-326 | One round of the outer loop: copied record, removed ranges, cut-off or failure |
| Rewriter.EmptyResponse | src/Rfc1035.cpp:239-249 | Cuts the packet behind the question and clears the counts; fails, leaving it alone, without a parsable question |
| Rewriter.SetCounts | src/Rfc1035.cpp:232-237 | Answer count set, authority and additional counts cleared, all else as it was |
| Parser.ParseRequestAAndAnswers | src/Rfc1035.cpp:334-383 | Accepts exactly the packets with one question of class IN and an uncompressed name, and leaves ID and type as far as they were read |
| Parser.QuestionEnd | src/Rfc1035.cpp:216-229 | The offset behind the question, and the announced number of answers |
| Parser.GetBufferName | src/Rfc1035.cpp:385-419 | End and text of an uncompressed name; an overlong label is stepped over as the cursor's failed read leaves it, and what was read before, resized, stands for it in the text |
| Agreement.QuestionTextIsName | src/Rfc1035.cpp:385-419 | The text of an uncompressed name is the labels a separate decoder reads, with dots between them |
| Parser.SkipBufferName | src/Rfc1035.cpp:421-451 | End of a name, a compression pointer ending it |
| Parser.ParseResponseA | src/Rfc1035.cpp:25-105 | The loop computes ParsedResponse, which AddressesFound.FindsExactly pins down: ID, flags, type and the addresses in order, or failure |
| AddressesFound.FindsExactly | src/Rfc1035.cpp:25-163 | A response whose question and answers a separate decoder reads is accepted if and only if its answers are of class 1 and of type 1, 5, 28, 64 or 65, or empty; the addresses found are, in record order, the big-endian numbers of the 4-byte type 1 and the bytes of the 16-byte type 28 RDATA, and the whole 4- and 16-byte groups of parameters 4 and 6 of types 64 and 65, and no others |
| AddressesFound.QuestionExactly | src/Rfc1035.cpp:334-383 | With an uncompressed name, exactly packets of one question of class 1 are accepted; ID, flags, answer count and type are the big-endian numbers at their places |
| AddressesFound.QueryReads | src/Rfc1035.cpp:334-383 | The ID and type the server takes from a packet with an uncompressed question name, whatever else is wrong with it |
| Parser.ParseSvcParamHint | src/Rfc1035.cpp:107-163 | The addresses of all ipv4hint and ipv6hint parameters of one RDATA, in order |
| AutoBuffers.AutoBuffer.ReadUINT8 | src/AutoBuffer.h:58-68 | Reads inside the buffer or fails and moves nothing |
| AutoBuffers.AutoBuffer.ReadUINT16 | src/AutoBuffer.h:43-56 | Big-endian, inside the buffer, or fails and moves nothing |
| AutoBuffers.AutoBuffer.ReadUINT32 | src/AutoBuffer.h:27-41 | Big-endian, inside the buffer, or fails and moves nothing |
| AutoBuffers.AutoBuffer.ReadBuffer | src/AutoBuffer.h:70-80 | Exactly the next bytes, inside the buffer, or fails and moves nothing |
| AutoBuffers.AutoBuffer.Assign | src/AutoBuffer.h:13-16 | Replaces the bytes and keeps the offset |
| QueryWork.EveryOrderSameReply | src/DNSQueryWork.cpp:266-293 | Order independence: from any state ServerNewWork creates with a zone awaited, if each awaited zone answers once, every order of arrival settles the query with the same reply, the lowest-index match, else the first zone's non-match, else none |
| Interleavings.EveryRunSameReply | src/DNSQueryWork.cpp:105-311 | Order independence over runs: after any run, let a query with a new ID come in and each zone it is sent to answer it once, in any order, between retransmissions the zones take and any queries and answers with other IDs; it then has begun once and ended once and is no longer under way, and its reply is what becomes of the promised answer, less the addresses the zone that gave it drops |
| Interleavings.ComesToArrive | src/DNSQueryWork.cpp:173-293 | Whatever queries and answers with other IDs lie between, and however many answers come late, a query's answers leave it as they would alone |
| QueryWork.CacheIsRescan | src/DNSQueryWork.cpp:268-284 | While zones answer only when awaited, scanning from m_nMaxDoneIndex finds what scanning from 0 finds |
| QueryWork.CacheMissesExactly | src/DNSQueryWork.cpp:268-284 | The cached scan differs from a rescan exactly when a zone below the cached index answers once more and now matches |
| QueryWork.ReplyIsPromisedExactly | src/DNSQueryWork.cpp:268-292 | A settled query yields the lowest-index match (else the first zone's non-match, else nothing) exactly when no slot below the cached index holds a match |
| QueryWork.RepeatedAnswerLosesReply | src/DNSQueryWork.cpp:266-292 | A concrete run in which a zone's repeated answer costs the client its reply |
| QueryWork.StoreKeepsDecided | src/DNSQueryWork.cpp:266-284 | Storing an answer keeps every slot below the cached index decided, never lowers the index, and leaves it at an awaited slot |
| QueryRuns.RepliesAreSafe | src/DNSQueryWork.cpp:105-159 | Over every run of queries, resends, answers and disconnects: queries begun are those ended and those under way, each ended one with at most one reply; no reply is empty and each carries its query's ID, even after DropAddress |
| QueryRuns.StepAdvances | src/DNSQueryWork.cpp:268-284 | In any run, repeated answers included, no step lowers the cached index or returns a decided slot to WAIT |
| QueryRuns.QueryExactly | src/DNSQueryWork.cpp:105-159 | A packet begins its query, asking the first zone and those that take part, or repeats it: an awaited zone stays awaited exactly if its socket takes the packet and is an error else, decided slots keep state and data; no other query is touched |
| QueryRuns.DisconnectExactly | src/DNSQueryWork.cpp:161-171 | A failed zone becomes an error in each query that awaits it; every other slot, and the log, stay |
| Delivery.RepliesAreEarned | src/DNSQueryWork.cpp:173-311 | Over every run, each reply is what becomes of an answer some zone gave to that query: the zone's bytes when it drops nothing, else the emptied or rewritten packet of Dropping.DroppedBecomes; there is none when that fails |
| Delivery.ReceivedExactly | src/DNSConnect.cpp:38-59 | What the judge gets of a well-formed answer: its bytes, whether it is parsed, and if so the type and flags at their places and the addresses AddressesFound.FindsExactly tells of |
| QueryRuns.GuardedRunRescans | src/DNSQueryWork.cpp:268-284 | Over every run in which zones answer only when awaited, each slot below the cached index is ERROR or NOT_MATCH and the cached scan is a full rescan |
| QueryRuns.ChosenAnswers | src/DNSQueryWork.cpp:296-311 | The bytes SendResult hands over, dropped addresses or not, are not empty and carry the query's ID |
| Transactions.DNSQueryWork.ServerNewWork | src/DNSQueryWork.cpp:105-159 | Creates or resends exactly as specified, and hands the datagram to exactly the zones that are awaited afterwards |
| Transactions.DNSQueryWork.DNSQueryDisconnect | src/DNSQueryWork.cpp:161-171 | Every query's awaited slot of that zone becomes an error, nothing else changes |
| Transactions.DNSQueryWork.DNSQueryResult | src/DNSQueryWork.cpp:173-293 | Judges and stores the answer, scans from the cached index, and settles or keeps the query as specified |
| Transactions.DNSQueryWork.SendResult | src/DNSQueryWork.cpp:296-311 | Computes Reply, which Delivery.ReplyDelivers pins down |
| Delivery.ReplyDelivers | src/DNSQueryWork.cpp:296-311 | The winner's bytes as they are if its zone drops neither family; else what is left of them without the dropped addresses, or nothing when they cannot be taken out |
| Transactions.DNSQueryWork.Init | src/DNSQueryWork.cpp:25-74 | One connection for each zone, with a socket exactly if connecting succeeds; with unused descriptors from the kernel it never fails, and adds exactly its own sockets to the table |
| Transactions.DNSQueryWork.Exit | src/DNSQueryWork.cpp:76-96 | Closes and unregisters exactly the sockets the transaction owns |
| Verdict.MatchIsMoreThanAThird | src/DNSQueryWork.cpp:220-260 | A participating zone with at least one judged address: MATCH exactly when three times the accepted addresses exceed the judged ones |
| Verdict.VerdictExactly | src/DNSQueryWork.cpp:186-260 | The whole verdict, as two equivalences: an error exactly for an empty answer; a match exactly when the zone takes part and, for types 1, 28, 64 and 65, the answer is parsed and of such a type and either holds nothing to judge and is no distrusted NXDOMAIN, or more than a third of what it judges is accepted |
| Verdict.VerdictIgnoresOrder | src/DNSQueryWork.cpp:220-260 | The verdict does not depend on the order of the addresses |
| Verdict.CountJudged | src/DNSQueryWork.cpp:191-240 | The two counters: judged addresses of the families in use, and those among them the zone's lists accept |
| Verdict.JudgeResponse | src/DNSQueryWork.cpp:196-260 | The slot's new state, branch by branch |
| Servers.Server.SocketsArePartitioned | src/WorkManager.cpp:62-74 | In every state the server keeps, a descriptor is open exactly when some live transaction's connection has it as its socket, and then exactly one connection of one transaction has |
| Servers.Server.OnBatch | src/Server.cpp:280-322 | The events in order, as far as one that ends the server. Each brings just its own marks to its client: an accepted packet a query, a failed descriptor a disconnect, else a readable one an answer, at the connection and client of that descriptor; the queries under way and the replies are always those these marks lead to. Nothing is closed: every descriptor stays for the same connection, and every query is accounted for |
| Servers.Server.OneRound | src/Server.cpp:271-331 | One turn of the loop: the batch, then the idle transactions, and the stale ones exactly when 1000 milliseconds have passed since they were last looked for; none is idle or stale then, and an event that ends the server skips both |
| Servers.Server.Clean | src/Server.cpp:326-331 | When 1000 milliseconds have passed since the last time, exactly the stale transactions are removed and the time is noted; nothing happens before |
| Servers.Server.OnUpstream | src/Server.cpp:316-321 | Failure before readability before writability: the marks, the queries and the replies they bring; the socket is not watched any more only on failure, and its queue drained from the front only when it is just writable; replies leave in order unless the kernel refuses the first of an empty queue |
| Servers.Server.OnHappening | src/Server.cpp:284-321 | One event of the batch, by kind; the server stops exactly on a signal or a listening socket neither readable nor writable |
| ServerRuns.OpenIsRun | src/DNSQueryWork.cpp:105-311 | An open transaction's queries are those the run of its events since it was opened leads to, and the replies its client got since then are those of that run |
| ServerRuns.EveryReplyGrounded | src/DNSQueryWork.cpp:173-311 | Whatever sequence of openings, events and closings the server goes through, each reply it makes is what becomes of an answer some zone gave to a query of that client |
| Servers.Server.StaleExactly | src/WorkManager.cpp:41-60 | A transaction is stale exactly when its client's last query came more than 10000 milliseconds before |
| Servers.ElapsedExactly | src/WorkManager.cpp:41-60 | The difference of two clock readings, wrapping at 64 bits when the clock runs backwards |
| Servers.Server.CloseIdle | src/WorkManager.cpp:25-39 | Removes exactly the transactions noted as idle that have no query under way, drops no query, and keeps the tables in agreement |
| Servers.Server.ClearTimeout | src/WorkManager.cpp:41-60 | Removes exactly the transactions untouched for more than ten seconds, with their sockets |
| Servers.Server.ExitAndClear | src/WorkManager.cpp:62-74 | No transaction, no entry in the connection table and no open upstream descriptor is left |
| Servers.Server.Serve | src/Server.cpp:271-337 | Over every run, however it ends: the batches are handled in order, each followed by its closings, and the replies are those all these marks lead to; all sockets are closed, and the queries begun are, as multisets, those settled and those closed with their transaction |
| Servers.Server.OnListenRead | src/Server.cpp:94-138 | Reads packets in order until it has read 64, none is left or one is empty; exactly the clients of those read gain a transaction if they had none, each packet's query is under way afterwards, no query is lost, other clients' queries are as they were, and no transaction or socket is replaced |
| Servers.Server.OnDatagram | src/Server.cpp:118-136 | Finds or creates the client's transaction and hands it the query; other clients' queries are as they were |
| Servers.Server.Read | src/DNSConnect.cpp:38-59 | Brings one answer to its client: it settles at most the query with its ID, whose reply is made and leaves or waits; the client is noted as idle exactly when that was its last |
| Servers.Server.Disconnect | src/DNSConnect.cpp:76-81 | Brings one disconnect to its client: the failed zone is given up in its queries; the socket stays open and is not watched |
| Servers.Server.SendTo | src/Server.cpp:154-167 | Replies leave or queue in the order given; one is lost only when refused at once |
| Servers.Server.OnListenWrite | src/Server.cpp:140-152 | Drains the reply queue from the front until the kernel has no room |
| Transactions.DNSConnect.SendDNSQueryBuffer | src/DNSConnect.cpp:83-99 | Refused without a socket or on a lasting error; else the datagram leaves or queues behind those before it, and a watched socket waits for room exactly when something is queued |
| Transactions.DNSConnect.Write | src/DNSConnect.cpp:61-73 | Drains the queue from the front until the kernel has no room, keeping that equivalence |
| Transactions.DrainKeepsOrder | src/DNSConnect.cpp:61-73 | Unless the kernel refuses a datagram for good, what leaves followed by what stays is the queue |
| Transactions.DrainsExactly | src/DNSConnect.cpp:61-73 | Offered to the kernel from the front, the queue leaves up to the first datagram the kernel is busy for, and exactly that rest stays; those it refuses for another reason are lost |
| Transactions.MapManager.SaveItem | src/MapManager.h:13-22 | Never overwrites an entry |
| AddressLists.SearchIsMember | src/ConfigType.cpp:155-198 | On a sorted list without an entry strictly inside another, the search terminates and says yes exactly when some entry contains the address |
| AddressLists.SearchIsExactWhen | src/ConfigType.cpp:155-198 | On any sorted list the search is exact for an address if and only if no entry contains it or one of the entries it looks at does |
| AddressLists.ListIsExactWhen | src/ConfigType.cpp:155-198 | A sorted list is searched rightly for all addresses if and only if, for each entry, every earlier or equal entry that reaches past where this one begins reaches, up to where the next begins, no further than one of the entries the search looks at in between; a condition on the entries' bounds alone |
| AddressLists.HitIsMember | src/ConfigType.cpp:155-243 | On any list, a hit means that some entry contains the address |
| AddressLists.NestedEntryHidesOuter | src/ConfigType.cpp:155-198 | With 10.0.0.0/8, 10.1.0.0/16 and 10.2.0.0/16 the search misses 10.3.0.1 |
| AddressLists.MatchesIsMember | src/ConfigType.cpp:155-243 | A loaded list of either family without strict nesting: CheckIsMatch is membership, negated by the inverse flag |
| AddressLists.MatchIsSound | src/ConfigType.cpp:155-243 | Nesting or not: a match of a plain list, and a non-match of an inverse one, mean membership |
| AddressLists.CheckIsMatch4 | src/ConfigType.cpp:155-198 | The IPv4 search loop terminates, stays in bounds and computes the specified answer |
| AddressLists.CheckIsMatch6 | src/ConfigType.cpp:200-243 | The same for 16-byte addresses |
| AddressLists.AcceptsIsFirstMatch | src/ConfigType.cpp:283-305 | A zone accepts an address exactly when the first list of its family that matches exists and is not a deny list |
| AddressLists.ZoneCheckIsMatch | src/ConfigType.cpp:283-305 | The loop over a zone's lists computes that |
| Cidr.NestedOrDisjoint | src/ConfigType.cpp:20-48 | Two prefix blocks are nested or disjoint (section 3.1 of RFC 4632) |
| Cidr.MatchCompareIsCompare | src/ConfigType.h:20-30 | For a normalised IPv4 entry, the masked comparison is negative, zero or positive exactly when the address is below, inside or above its block |
| Cidr.MatchCompareIsCompare6 | src/ConfigType.h:40-62 | The same for IPv6: ApplyMask and memcmp agree with comparison of 128-bit numbers |
| Cidr.MaskedValue | src/ConfigType.h:47-62 | Masking byte by byte rounds the 128-bit number down to a multiple of the block size |
| Cidr.MemCmpIsCompare | src/ConfigType.h:45 | Comparing network-order bytes is comparing the numbers |
| Cidr.ApplyMask | src/ConfigType.h:47-62 | The loop writes the masked bytes into the caller's array |
| Cidr.MadeNormal | src/ConfigType.cpp:20-48 | SetFromString stores a normalised IPv4 entry, whose block holds the parsed address |
| Cidr.MadeNormal6 | src/ConfigType.cpp:50-77 | The same for IPv6 |
| Cidr.ParsePrefix | src/ConfigType.cpp:4-18 | Accepts exactly one to three decimal digits of value at most the family's width |
| JsonRoundTrip.ParsedUndoesPrinted | src/cJSON.cpp:1212-1717 | Parsing the plain or formatted print of a tree gives the tree back exactly when it is nested at most 1000 deep; numbers are texts that strtod takes whole |
| JsonRoundTrip.ValueReads | src/cJSON.cpp:1212-1338 | The printed value, anywhere in a text and at any depth that is left, is what the parser finds there, ending just past it |
| JsonRoundTrip.ValueIsShallow | src/cJSON.cpp:1341-1603 | No text makes the parser return a tree nested deeper than 1000 |
| JsonStrings.PrintedStringReads | src/cJSON.cpp:698-946 | parse_string undoes print_string_ptr on every string and stops just past the closing quote, whatever follows |
| JsonStrings.DecodedFits | src/cJSON.cpp:711-802 | For every input, what the decoding pass writes, also before it fails or after it has lost step with the scan, and the NUL fit the scanned size |
| JsonStrings.WritesWhatIsCounted | src/cJSON.cpp:746-802 | The decoder writes at most what the scan counts, plus one when out of step |
| JsonStrings.Utf8Reads | src/cJSON.cpp:640-695 | The UTF-8 written for a code point gives the code point back (section 3 of RFC 3629) |
| JsonStrings.CodeEscapeReads | src/cJSON.cpp:577-695 | The escape of any code point but a surrogate, as one unit or as a surrogate pair, digits of either case, reads as the UTF-8 of that code point (section 7 of RFC 8259) |
| JsonStrings.LoneSurrogateRefused | src/cJSON.cpp:590-626 | An escaped surrogate that is not the first of a pair is refused |
| JsonStrings.EscapedLength | src/cJSON.cpp:854-878 | The first pass of print_string_ptr counts exactly the bytes the second writes |
| JsonStrings.ParseString | src/cJSON.cpp:698-824 | Both passes over an array of the scanned size: no write leaves it, and the result is the specified string and offset |
| JsonStrings.Utf16LiteralToUtf8 | src/cJSON.cpp:577-695 | A Unicode escape or surrogate pair is written at the output position, nothing before it changes; 0 and no write when malformed |
| JsonStrings.PrintStringPtr | src/cJSON.cpp:827-946 | Both ways of printing fill an array of exactly the counted size with the quoted string and NUL |
| JsonBuffers.Parse | src/cJSON.cpp:1000-1083 | cJSON_Parse computes the specified tree, or fails |
| Json.SkipsExactly | src/cJSON.cpp:963-981 | Skips exactly the bytes up to 32, among them tab, line feed, carriage return and space, and stops at the closing NUL at the latest |
| JsonBuffers.ParseBuffer.BufferSkipWhitespace | src/cJSON.cpp:963-981 | Past white space, but not past the closing NUL |
| JsonBuffers.ParseBuffer.ParseValue | src/cJSON.cpp:1212-1264 | The specified value, offset and depth, or failure |
| JsonBuffers.ParseBuffer.ParseArray | src/cJSON.cpp:1341-1432 | Refuses at the nesting limit; else the elements in order, and the depth restored |
| JsonBuffers.ParseBuffer.ParseObject | src/cJSON.cpp:1497-1603 | The same for members with their names |
| JsonBuffers.PrintBuffer.PrintValue | src/cJSON.cpp:1267-1338 | Appends the specified text at the current depth |
| JsonBuffers.PrintBuffer.PrintArray | src/cJSON.cpp:1435-1494 | Appends brackets, elements and separators, plain or formatted |
| JsonBuffers.PrintBuffer.PrintObject | src/cJSON.cpp:1606-1717 | Appends braces, indentation, names, values and line ends, plain or formatted |

## Left out

- Meaning.RewriteKeepsMeaning: claims nothing about responses whose pointers lead forward or into the middle of labels; Content.RewriteKeepsBytes says which bytes of those come out.
- Parser.ParseRequestAAndAnswers: does not hand on the text of the name (`sName`), which no caller uses.
- Servers.Server.Serve: runs are finite lists of batches; that a query ends is not claimed, as a zone's last event may be a disconnect, which settles nothing until the timeout.
- Servers.Server.Read: the transaction hands its reply back to the server object, which sends it; in the source the transaction calls the server.
- Transactions.DNSQueryWork.DNSQueryResult: a slot does not keep the addresses of its answer, which nothing reads.
- JsonBuffers.Parse: the error position and the pointer to the end of the parsed text are not modelled, nor failing allocations.
- JsonBuffers.PrintBuffer.PrintValue: the growth of the allocation behind the buffer, its limit of INT_MAX bytes and its failure are not modelled; lists of children are values, not linked nodes.
- JsonBuffers.PrintBuffer.PrintArray: the same growth and failure of the allocation are not modelled.
- JsonBuffers.PrintBuffer.PrintObject: the same growth and failure of the allocation are not modelled.
- JsonStrings.PrintedStringReads: strings are sequences of bytes, so a NUL inside one, at which C would stop, is kept.
- The work manager's table and the server are one object; the listening socket, epoll, inotify, signals, daemon mode, logging and the choice of a reply's source address are not modelled beyond the events they deliver.
- `LoadFile`, `inet_pton` and `std::sort`: the lists start from parsed addresses and prefix lengths, sorted.
- `Config.cpp` and the reloading of resolv.conf: zones are a parameter and stay the same over a run.
- cJSON numbers beyond their text (`strtod` is a function parameter, `sprintf` is left out), raw items, and the editing, creating and minifying functions, which the forwarder does not call.
- The `mandatory` parameter of section 8 of RFC 9460, which the rewriter does not adjust.
- A and AAAA records inside an SVCB or HTTPS answer section before any removal, which are copied as they are: nothing is claimed about the addresses in them being dropped.
