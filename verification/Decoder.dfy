/**
 What a DNS message says: a decoder that decompresses names, written from section 4.1 of
 RFC 1035 and section 2.2 of RFC 9460, and independent of the forwarder's own parsers.
 */
module Decoder {
  import opened Wrappers
  import opened Bytes
  import opened Parser
  import opened Rewriter
  import opened Pointers

  type Label = seq<byte>

  /**
   The labels of the name at p, following compression pointers. A pointer leads to an earlier
   name: before limit, where the run of labels it ends began.
   */
  function Expanded(s: seq<byte>, p: nat, limit: nat): Option<seq<Label>>
    decreases limit, |s| - p
  {
    if p >= |s| then None
    else if s[p] == 0 then Some([])
    else if s[p] >= 0xC0 then
      if p + 2 > |s| || PointerAt(s, p) >= limit then None else Expanded(s, PointerAt(s, p), PointerAt(s, p))
    else if s[p] >= 0x40 || p + 1 + s[p] > |s| then None
    else
      match Expanded(s, p + 1 + s[p], limit)
      case None => None
      case Some(labels) => Some([s[p + 1..p + 1 + s[p]]] + labels)
  }

  function Name(s: seq<byte>, p: nat): Option<seq<Label>> {
    Expanded(s, p, p)
  }

  /** The offset just past the name at p, its pointer not followed. */
  function NameEnd(s: seq<byte>, p: nat): (r: Option<nat>)
    ensures r.Some? ==> p < r.value <= |s|
    decreases |s| - p
  {
    if p >= |s| then None
    else if s[p] == 0 then Some(p + 1)
    else if s[p] >= 0xC0 then if p + 2 > |s| then None else Some(p + 2)
    else if s[p] >= 0x40 || p + 1 + s[p] > |s| then None
    else NameEnd(s, p + 1 + s[p])
  }

  datatype Param = Param(key: uint16, value: seq<byte>)

  function Params(s: seq<byte>, p: nat, end: nat): Option<seq<Param>>
    requires p <= end <= |s|
    decreases end - p
  {
    if p == end then Some([])
    else if p + 4 > end || p + 4 + U16(s, p + 2) > end then None
    else
      var next := p + 4 + U16(s, p + 2);
      match Params(s, next, end)
      case None => None
      case Some(rest) => Some([Param(U16(s, p), s[p + 4..next])] + rest)
  }

  datatype Rdata =
    | Service(priority: uint16, target: seq<Label>, params: seq<Param>)
    | Alias(canonical: seq<Label>)
    | Other(bytes: seq<byte>)

  function ServiceRdata(s: seq<byte>, p: nat, end: nat): Option<Rdata>
    requires p <= end <= |s|
  {
    if p + 2 > end then None
    else
      match (Name(s, p + 2), NameEnd(s, p + 2))
      case (Some(target), Some(q)) =>
        if q > end then None
        else if Params(s, q, end).None? then None
        else Some(Service(U16(s, p), target, Params(s, q, end).value))
      case _ => None
  }

  /** RDATA of the queried type is a service binding, of CNAME (type 5) a name. */
  function RdataAt(s: seq<byte>, rtype: uint16, p: nat, end: nat, qtype: uint16): Option<Rdata>
    requires p <= end <= |s|
  {
    if rtype == qtype then ServiceRdata(s, p, end)
    else if rtype == 5 then
      match Name(s, p)
      case Some(name) => if NameEnd(s, p) == Some(end) then Some(Alias(name)) else None
      case None => None
    else Some(Other(s[p..end]))
  }

  datatype Record = Record(owner: seq<Label>, rtype: uint16, rclass: uint16, ttl: nat, rdata: Rdata)

  /** The record whose owner name starts at p and whose fixed fields start at q. */
  function RecordAt(s: seq<byte>, p: nat, q: nat, end: nat, qtype: uint16): Option<Record>
    requires q + 10 <= end <= |s|
  {
    match (Name(s, p), RdataAt(s, U16(s, q), q + 10, end, qtype))
    case (Some(owner), Some(rdata)) => Some(Record(owner, U16(s, q), U16(s, q + 2), U32(s, q + 4), rdata))
    case _ => None
  }

  function RecordEnd(s: seq<byte>, p: nat): (r: Option<(nat, nat)>)
    ensures r.Some? ==> p < r.value.0 && r.value.0 + 10 <= r.value.1 <= |s|
  {
    match NameEnd(s, p)
    case None => None
    case Some(q) =>
      if q + 10 > |s| || q + 10 + U16(s, q + 8) > |s| then None else Some((q, q + 10 + U16(s, q + 8)))
  }

  function Records(s: seq<byte>, p: nat, n: nat, qtype: uint16): Option<seq<Record>>
    decreases n
  {
    if n == 0 then Some([])
    else
      match RecordEnd(s, p)
      case None => None
      case Some((q, end)) =>
        match (RecordAt(s, p, q, end, qtype), Records(s, end, n - 1, qtype))
        case (Some(first), Some(rest)) => Some([first] + rest)
        case _ => None
  }

  datatype Message = Message(id: uint16, flags: uint16, qname: seq<Label>, qtype: uint16, qclass: uint16, answers: seq<Record>)

  /** A message of one question, with its first n answers. */
  function Decoded(s: seq<byte>, n: nat, qtype: uint16): Option<Message> {
    if |s| < 12 || U16(s, 4) != 1 then None
    else
      match (Name(s, 12), NameEnd(s, 12))
      case (Some(qname), Some(q)) =>
        if q + 4 > |s| then None
        else
          (match Records(s, q + 4, n, qtype)
           case None => None
           case Some(answers) => Some(Message(U16(s, 0), U16(s, 2), qname, U16(s, q), U16(s, q + 2), answers)))
      case _ => None
  }

  // ----- what a rewrite takes away

  /** An ipv4hint or ipv6hint (section 7.3 of RFC 9460) of a dropped family. */
  predicate Unwanted(drop: Families, key: uint16) {
    (drop.v4 && key == 4) || (drop.v6 && key == 6)
  }

  function WithoutParams(params: seq<Param>, drop: Families): seq<Param> {
    if params == [] then []
    else if Unwanted(drop, params[0].key) then WithoutParams(params[1..], drop)
    else [params[0]] + WithoutParams(params[1..], drop)
  }

  function Stripped(r: Rdata, drop: Families): Rdata {
    if r.Service? then r.(params := WithoutParams(r.params, drop)) else r
  }

  function Without(r: Record, drop: Families): Record {
    r.(rdata := Stripped(r.rdata, drop))
  }

  function AllWithout(records: seq<Record>, drop: Families): seq<Record> {
    if records == [] then [] else [Without(records[0], drop)] + AllWithout(records[1..], drop)
  }

  // ----- where pointers may lead

  /** The offsets at which a label of the name at p, its pointer or its final zero begins. */
  function NameStarts(s: seq<byte>, p: nat): set<nat>
    decreases |s| - p
  {
    if p >= |s| then {}
    else if s[p] == 0 || s[p] >= 0x40 then {p}
    else {p} + NameStarts(s, p + 1 + s[p])
  }

  predicate PointsInto(s: seq<byte>, p: nat, known: set<nat>) {
    NamePointer(s, p).Some? ==> NamePointer(s, p).value in known
  }

  /** Every place in [lo, hi) from which a name can be read inside these bytes. */
  function NamesInside(s: seq<byte>, lo: nat, hi: nat, known: set<nat>): set<nat> {
    set x: nat | lo <= x < hi && NameEnd(s, x).Some? && NameEnd(s, x).value <= hi && PointsInto(s, x, known)
  }

  /** The places a later name may point to, once the record at p has been read. */
  function KnownAfter(s: seq<byte>, p: nat, q: nat, end: nat, qtype: uint16, known: set<nat>): set<nat>
    requires q + 10 <= end <= |s|
  {
    var known1 := known + NameStarts(s, p);
    known1 + if U16(s, q) == qtype then NameStarts(s, q + 12) else NamesInside(s, q + 10, end, known1)
  }

  /** The record at p points, if anywhere, to a known place. */
  predicate RecordPointsBack(s: seq<byte>, p: nat, q: nat, end: nat, qtype: uint16, known: set<nat>)
    requires q + 10 <= end <= |s|
  {
    var known1 := known + NameStarts(s, p);
    && PointsInto(s, p, known)
    && (U16(s, q) == qtype ==> PointsInto(s, q + 12, known1))
    && (U16(s, q) != qtype && U16(s, q) == 5 ==> PointsInto(s, q + 10, known1))
  }

  /**
   Every name the n records from p on hold points, if anywhere, to a prior occurrence of a
   name (section 4.1.4 of RFC 1035): to a label of a question, owner or target name, or to
   whatever reads as a name in the RDATA of another type.
   */
  predicate PointsBack(s: seq<byte>, p: nat, n: nat, qtype: uint16, known: set<nat>)
    decreases n
  {
    match (n, RecordEnd(s, p))
    case (0, _) => true
    case (_, None) => false
    case (_, Some((q, end))) =>
      && RecordPointsBack(s, p, q, end, qtype, known)
      && PointsBack(s, end, n - 1, qtype, KnownAfter(s, p, q, end, qtype, known))
  }

  /** The question's name is not compressed, and the first n answers point back. */
  predicate WellPointed(s: seq<byte>, n: nat, qtype: uint16) {
    && NameEnd(s, 12).Some? && NamePointer(s, 12).None?
    && PointsBack(s, NameEnd(s, 12).value + 4, n, qtype, NameStarts(s, 12))
  }
}
