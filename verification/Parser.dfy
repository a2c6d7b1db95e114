/**
 The forwarder's packet parsers (src/Rfc1035.cpp): what each accepts, as a function of the
 bytes, and the cursor loops that compute it.
 */
module Parser {
  import opened Wrappers
  import opened Bytes
  import opened AutoBuffers

  const TYPE_A: uint16 := 0x0001
  const TYPE_CNAME: uint16 := 0x0005
  const TYPE_AAAA: uint16 := 0x001C
  const TYPE_SVCB: uint16 := 0x0040
  const TYPE_HTTPS: uint16 := 0x0041

  const IPV4HINT: uint16 := 0x0004
  const IPV6HINT: uint16 := 0x0006

  predicate IsIPBearingType(qtype: uint16) {
    qtype == TYPE_A || qtype == TYPE_AAAA || qtype == TYPE_SVCB || qtype == TYPE_HTTPS
  }

  // ----- what the parsers accept

  /**
   Offset just past the question's name at p. A compression pointer is refused. A label
   longer than what is left of the packet is not: its read fails unnoticed and takes no
   bytes, so the scan goes on right after the length byte.
   */
  function QuestionNameEnd(s: seq<byte>, p: nat): (r: Option<nat>)
    ensures r.Some? ==> p < r.value <= |s|
    decreases |s| - p
  {
    if p >= |s| || s[p] >= 0xC0 then None
    else if s[p] == 0 then Some(p + 1)
    else QuestionNameEnd(s, if p + 1 + s[p] <= |s| then p + 1 + s[p] else p + 1)
  }

  const DOT: byte := 0x2E

  /** part, cut or filled up with zeros to n bytes. */
  function Resized(part: seq<byte>, n: nat): seq<byte> {
    if n <= |part| then part[..n] else part + seq(n - |part|, _ => 0 as byte)
  }

  /**
   The labels from p on as text, a dot behind each. In place of a label that is not there stands
   what was read before it, resized.
   */
  function LabelText(s: seq<byte>, p: nat, part: seq<byte>): seq<byte>
    decreases |s| - p
  {
    if p >= |s| || s[p] == 0 || s[p] >= 0xC0 then []
    else
      var next := p + 1 + s[p];
      if next <= |s| then s[p + 1..next] + [DOT] + LabelText(s, next, s[p + 1..next])
      else Resized(part, s[p]) + [DOT] + LabelText(s, p + 1, Resized(part, s[p]))
  }

  /** The text of the question's name at p, without the last dot. */
  function QuestionText(s: seq<byte>, p: nat): seq<byte> {
    var text := LabelText(s, p, []);
    if text == [] then [] else text[..|text| - 1]
  }

  /** Offset just past the name at p; a compression pointer ends it. */
  function SkippedNameEnd(s: seq<byte>, p: nat): (r: Option<nat>)
    ensures r.Some? ==> p < r.value <= |s|
    decreases |s| - p
  {
    if p >= |s| then None
    else if s[p] >= 0xC0 then if p + 2 <= |s| then Some(p + 2) else None
    else if s[p] == 0 then Some(p + 1)
    else SkippedNameEnd(s, if p + 1 + s[p] <= |s| then p + 1 + s[p] else p + 1)
  }

  datatype Question = Question(id: uint16, flags: uint16, answers: uint16, qtype: uint16, end: nat)

  /** The header and the one question of class IN it must announce. */
  function ParsedQuestion(s: seq<byte>): (r: Option<Question>)
    ensures r.Some? ==> 17 <= r.value.end <= |s|
  {
    if |s| < 12 || U16(s, 4) != 1 then None
    else
      match QuestionNameEnd(s, 12)
      case None => None
      case Some(q) =>
        if q + 4 > |s| || U16(s, q + 2) != 1 then None
        else Some(Question(U16(s, 0), U16(s, 2), U16(s, 6), U16(s, q), q + 4))
  }

  /** The ID a reader is left with: 0 when the packet is too short to hold one. */
  function PacketId(s: seq<byte>): uint16 {
    if |s| < 2 then 0 else U16(s, 0)
  }

  /** The question's type a reader is left with: 0 when parsing stops before it. */
  function PacketType(s: seq<byte>): uint16 {
    if |s| < 12 || U16(s, 4) != 1 then 0
    else
      match QuestionNameEnd(s, 12)
      case None => 0
      case Some(q) => if q + 2 > |s| then 0 else U16(s, q)
  }

  datatype Addresses = Addresses(v4: seq<uint32>, v6: seq<Ipv6>) {
    function Then(next: Addresses): Addresses {
      Addresses(v4 + next.v4, v6 + next.v6)
    }
  }

  const NO_ADDRESS := Addresses([], [])

  /** The 4-byte groups of an ipv4hint from p on; a shorter rest is ignored. */
  function V4Hints(value: seq<byte>, p: nat): seq<uint32>
    decreases |value| - p
  {
    if p + 4 > |value| then [] else [U32(value, p)] + V4Hints(value, p + 4)
  }

  /** The 16-byte groups of an ipv6hint from p on; a shorter rest is ignored. */
  function V6Hints(value: seq<byte>, p: nat): seq<Ipv6>
    decreases |value| - p
  {
    if p + 16 > |value| then [] else [value[p..p + 16]] + V6Hints(value, p + 16)
  }

  function ParamAddresses(key: uint16, value: seq<byte>): Addresses {
    if key == IPV4HINT then Addresses(V4Hints(value, 0), [])
    else if key == IPV6HINT then Addresses([], V6Hints(value, 0))
    else NO_ADDRESS
  }

  /** The addresses of the SvcParams from p on; fewer than four trailing bytes are ignored. */
  function ParamListAddresses(d: seq<byte>, p: nat): Option<Addresses>
    decreases |d| - p
  {
    if p + 4 > |d| then Some(NO_ADDRESS)
    else
      var end := p + 4 + U16(d, p + 2);
      if end > |d| then None
      else
        match ParamListAddresses(d, end)
        case None => None
        case Some(rest) => Some(ParamAddresses(U16(d, p), d[p + 4..end]).Then(rest))
  }

  /** SvcPriority, TargetName, SvcParams (section 2.2 of RFC 9460). */
  function SvcbAddresses(d: seq<byte>): Option<Addresses> {
    if |d| < 2 then None
    else
      match SkippedNameEnd(d, 2)
      case None => None
      case Some(q) => ParamListAddresses(d, q)
  }

  function RdataAddresses(rtype: uint16, d: seq<byte>): Option<Addresses> {
    if |d| == 0 || rtype == TYPE_CNAME then Some(NO_ADDRESS)
    else if rtype == TYPE_A then Some(if |d| == 4 then Addresses([U32(d, 0)], []) else NO_ADDRESS)
    else if rtype == TYPE_AAAA then Some(if |d| == 16 then Addresses([], [d]) else NO_ADDRESS)
    else if rtype == TYPE_SVCB || rtype == TYPE_HTTPS then SvcbAddresses(d)
    else None
  }

  /** The end of the answer record at p, and the addresses it carries. */
  function AnswerAddresses(s: seq<byte>, p: nat): (r: Option<(nat, Addresses)>)
    ensures r.Some? ==> p < r.value.0 <= |s|
  {
    match SkippedNameEnd(s, p)
    case None => None
    case Some(q) =>
      if q + 10 > |s| || U16(s, q + 2) != 1 then None
      else
        var end := q + 10 + U16(s, q + 8);
        if end > |s| then None
        else
          match RdataAddresses(U16(s, q), s[q + 10..end])
          case None => None
          case Some(addresses) => Some((end, addresses))
  }

  function AnswersAddresses(s: seq<byte>, p: nat, n: nat): Option<Addresses>
    decreases n
  {
    if n == 0 then Some(NO_ADDRESS)
    else
      match AnswerAddresses(s, p)
      case None => None
      case Some((end, here)) =>
        match AnswersAddresses(s, end, n - 1)
        case None => None
        case Some(rest) => Some(here.Then(rest))
  }

  datatype Response = Response(question: Question, addresses: Addresses)

  function ParsedResponse(s: seq<byte>): Option<Response> {
    match ParsedQuestion(s)
    case None => None
    case Some(q) =>
      match AnswersAddresses(s, q.end, q.answers)
      case None => None
      case Some(addresses) => Some(Response(q, addresses))
  }

  // ----- the cursor loops

  lemma TextGoesOn(name: seq<byte>, s: seq<byte>, p: nat, part: seq<byte>)
    requires p < |s| && s[p] < 0xC0
    ensures s[p] == 0 ==> name + LabelText(s, p, part) == name
    ensures s[p] > 0 ==>
              var next := p + 1 + s[p];
              var here := if next <= |s| then s[p + 1..next] else Resized(part, s[p]);
              var rest := LabelText(s, if next <= |s| then next else p + 1, here);
              name + LabelText(s, p, part) == name + (here + [DOT]) + rest
  {
  }

  method GetBufferName(aBuffer: AutoBuffer) returns (ok: bool, name: seq<byte>)
    requires aBuffer.Valid()
    modifies aBuffer`offset
    ensures aBuffer.Valid()
    ensures ok == QuestionNameEnd(aBuffer.data, old(aBuffer.offset)).Some?
    ensures ok ==> aBuffer.offset == QuestionNameEnd(aBuffer.data, old(aBuffer.offset)).value
    ensures ok ==> name == QuestionText(aBuffer.data, old(aBuffer.offset))
  {
    hide LabelText, Resized;
    ghost var goal := QuestionNameEnd(aBuffer.data, aBuffer.offset);
    ghost var text := LabelText(aBuffer.data, aBuffer.offset, []);
    name := [];
    var part: seq<byte> := [];
    while true
      invariant aBuffer.Valid()
      invariant QuestionNameEnd(aBuffer.data, aBuffer.offset) == goal
      invariant name + LabelText(aBuffer.data, aBuffer.offset, part) == text
      decreases |aBuffer.data| - aBuffer.offset
    {
      var read, nextLen := aBuffer.ReadUINT8();
      if !read {
        return false, name;
      }
      if nextLen >= 0xC0 {
        read, nextLen := aBuffer.ReadUINT8();
        return false, name;
      }
      TextGoesOn(name, aBuffer.data, aBuffer.offset - 1, part);
      if nextLen == 0 {
        break;
      }
      var bytes;
      read, bytes := aBuffer.ReadBuffer(nextLen);
      part := if read then bytes else Resized(part, nextLen);
      name := name + (part + [DOT]);
    }
    ok := true;
    if |name| > 0 {
      name := name[..|name| - 1];
    }
  }

  method SkipBufferName(aBuffer: AutoBuffer) returns (ok: bool)
    requires aBuffer.Valid()
    modifies aBuffer`offset
    ensures aBuffer.Valid()
    ensures ok == SkippedNameEnd(aBuffer.data, old(aBuffer.offset)).Some?
    ensures ok ==> aBuffer.offset == SkippedNameEnd(aBuffer.data, old(aBuffer.offset)).value
  {
    ghost var goal := SkippedNameEnd(aBuffer.data, aBuffer.offset);
    while true
      invariant aBuffer.Valid()
      invariant SkippedNameEnd(aBuffer.data, aBuffer.offset) == goal
      decreases |aBuffer.data| - aBuffer.offset
    {
      var read, nextLen := aBuffer.ReadUINT8();
      if !read {
        return false;
      }
      if nextLen >= 0xC0 {
        read, nextLen := aBuffer.ReadUINT8();
        return read;
      }
      if nextLen == 0 {
        return true;
      }
      var _, _ := aBuffer.ReadBuffer(nextLen);
    }
    return true;
  }

  /** The numbers read before a failure are handed out too: the caller looks a reply up by id. */
  method ParseRequestAAndAnswers(aBuffer: AutoBuffer)
    returns (ok: bool, id: uint16, flags: uint16, answers: uint16, qtype: uint16)
    requires aBuffer.offset == 0
    modifies aBuffer`offset
    ensures aBuffer.Valid()
    ensures id == PacketId(aBuffer.data) && qtype == PacketType(aBuffer.data)
    ensures ok == ParsedQuestion(aBuffer.data).Some?
    ensures ok ==> ParsedQuestion(aBuffer.data).value == Question(id, flags, answers, qtype, aBuffer.offset)
  {
    var questions, n;
    ok, id, flags, answers, qtype := false, 0, 0, 0, 0;
    ok, id := aBuffer.ReadUINT16();
    if !ok { return; }
    ok, flags := aBuffer.ReadUINT16();
    if !ok { return; }
    ok, questions := aBuffer.ReadUINT16();
    if !ok { return; }
    if questions != 1 {
      ok := false;
      return;
    }
    ok, answers := aBuffer.ReadUINT16();
    if !ok { return; }
    ok, n := aBuffer.ReadUINT16();
    if !ok { return; }
    ok, n := aBuffer.ReadUINT16();
    if !ok { return; }
    var name;
    ok, name := GetBufferName(aBuffer);
    if !ok { return; }
    ok, qtype := aBuffer.ReadUINT16();
    if !ok { return; }
    ok, n := aBuffer.ReadUINT16();
    if !ok { return; }
    ok := n == 1;
  }

  method ParseRequestA(bytes: seq<byte>) returns (ok: bool, id: uint16, flags: uint16, qtype: uint16)
    ensures id == PacketId(bytes) && qtype == PacketType(bytes)
    ensures ok == ParsedQuestion(bytes).Some?
    ensures ok ==> var q := ParsedQuestion(bytes).value; (id, flags, qtype) == (q.id, q.flags, q.qtype)
  {
    var aBuffer := new AutoBuffer();
    aBuffer.Assign(bytes);
    var answers;
    ok, id, flags, answers, qtype := ParseRequestAAndAnswers(aBuffer);
  }

  method QuestionEnd(bytes: seq<byte>) returns (ok: bool, end: nat, answers: uint16)
    ensures ok == ParsedQuestion(bytes).Some?
    ensures ok ==> var q := ParsedQuestion(bytes).value; (end, answers) == (q.end, q.answers)
  {
    var aBuffer := new AutoBuffer();
    aBuffer.Assign(bytes);
    var id, flags, qtype;
    ok, id, flags, answers, qtype := ParseRequestAAndAnswers(aBuffer);
    end := aBuffer.offset;
  }

  method ReadV4Hints(value: seq<byte>, found: seq<uint32>) returns (v4: seq<uint32>)
    ensures v4 == found + V4Hints(value, 0)
  {
    var aHint := new AutoBuffer();
    aHint.Assign(value);
    v4 := found;
    var read, ip := aHint.ReadUINT32();
    while read
      invariant aHint.Valid() && aHint.data == value
      invariant read ==> aHint.offset >= 4 && ip == U32(value, aHint.offset - 4)
      invariant !read ==> V4Hints(value, aHint.offset) == []
      invariant found + V4Hints(value, 0) == v4 + (if read then V4Hints(value, aHint.offset - 4) else [])
      decreases |value| - aHint.offset, read
    {
      v4 := v4 + [ip];
      read, ip := aHint.ReadUINT32();
    }
  }

  method ReadV6Hints(value: seq<byte>, found: seq<Ipv6>) returns (v6: seq<Ipv6>)
    ensures v6 == found + V6Hints(value, 0)
  {
    v6 := found;
    var p := 0;
    while p + 16 <= |value|
      invariant found + V6Hints(value, 0) == v6 + V6Hints(value, p)
    {
      v6 := v6 + [value[p..p + 16]];
      p := p + 16;
    }
  }

  method ParseParam(key: uint16, value: seq<byte>, found: Addresses) returns (r: Addresses)
    ensures r == found.Then(ParamAddresses(key, value))
  {
    r := found;
    if key == IPV4HINT {
      var v4 := ReadV4Hints(value, r.v4);
      r := r.(v4 := v4);
    } else if key == IPV6HINT {
      var v6 := ReadV6Hints(value, r.v6);
      r := r.(v6 := v6);
    }
  }

  /** Appends the hints of one SVCB/HTTPS RDATA to the addresses found so far. */
  method ParseSvcParamHint(d: seq<byte>, found: Addresses) returns (ok: bool, r: Addresses)
    ensures ok == SvcbAddresses(d).Some?
    ensures ok ==> r == found.Then(SvcbAddresses(d).value)
  {
    hide SkippedNameEnd, ParamAddresses;
    r := found;
    var aBuffer := new AutoBuffer();
    aBuffer.Assign(d);
    var priority, key, len, value;
    ok, priority := aBuffer.ReadUINT16();
    if !ok { return; }
    ok := SkipBufferName(aBuffer);
    if !ok { return; }
    ghost var goal := ParamListAddresses(d, aBuffer.offset);
    while |aBuffer.data| - aBuffer.offset >= 4
      invariant aBuffer.Valid() && aBuffer.data == d && ok
      invariant Continues(goal, ParamListAddresses(d, aBuffer.offset), found, r)
      decreases |d| - aBuffer.offset
    {
      ghost var before := r;
      ok, key := aBuffer.ReadUINT16();
      ok, len := aBuffer.ReadUINT16();
      ok, value := aBuffer.ReadBuffer(len);
      if !ok { return; }
      r := ParseParam(key, value, r);
      Continue(goal, ParamListAddresses(d, aBuffer.offset), found, before, ParamAddresses(key, value));
    }
  }

  /** From what was found, goal adds the same as rest adds to what is found by now. */
  ghost predicate Continues(goal: Option<Addresses>, rest: Option<Addresses>, found: Addresses, now: Addresses) {
    && goal.Some? == rest.Some?
    && (goal.Some? ==> found.Then(goal.value) == now.Then(rest.value))
  }

  lemma Continue(goal: Option<Addresses>, rest: Option<Addresses>, found: Addresses, now: Addresses, here: Addresses)
    requires Continues(goal, if rest.Some? then Some(here.Then(rest.value)) else None, found, now)
    ensures Continues(goal, rest, found, now.Then(here))
  {
    if rest.Some? {
      assert now.Then(here.Then(rest.value)) == now.Then(here).Then(rest.value);
    }
  }

  method ParseResponseA(bytes: seq<byte>)
    returns (ok: bool, id: uint16, flags: uint16, qtype: uint16, found: Addresses)
    ensures id == PacketId(bytes)
    ensures ok == ParsedResponse(bytes).Some?
    ensures ok ==> var r := ParsedResponse(bytes).value;
              (id, flags, qtype, found) == (r.question.id, r.question.flags, r.question.qtype, r.addresses)
  {
    hide AnswerAddresses, PacketType, QuestionNameEnd;
    found := NO_ADDRESS;
    var aBuffer := new AutoBuffer();
    aBuffer.Assign(bytes);
    var answers;
    ok, id, flags, answers, qtype := ParseRequestAAndAnswers(aBuffer);
    if !ok { return; }
    ghost var goal := AnswersAddresses(bytes, aBuffer.offset, answers);
    var i := 0;
    while i < answers
      invariant aBuffer.Valid() && aBuffer.data == bytes && i <= answers
      invariant Continues(goal, AnswersAddresses(bytes, aBuffer.offset, answers - i), NO_ADDRESS, found)
      invariant ok
    {
      ghost var before := found;
      ghost var here := AnswerAddresses(bytes, aBuffer.offset);
      ok, found := ParseAnswer(aBuffer, found);
      if !ok { return; }
      i := i + 1;
      Continue(goal, AnswersAddresses(bytes, aBuffer.offset, answers - i), NO_ADDRESS, before, here.value.1);
    }
    if goal.Some? {
      assert NO_ADDRESS.Then(goal.value) == goal.value && found.Then(NO_ADDRESS) == found;
    }
  }

  method ParseRdata(rtype: uint16, d: seq<byte>, found: Addresses) returns (ok: bool, r: Addresses)
    requires d != []
    ensures ok == RdataAddresses(rtype, d).Some?
    ensures ok ==> r == found.Then(RdataAddresses(rtype, d).value)
  {
    ok, r := true, found;
    assert found.Then(NO_ADDRESS) == found;
    if rtype == TYPE_CNAME {
    } else if rtype == TYPE_A {
      if |d| == 4 {
        r := r.(v4 := r.v4 + [U32(d, 0)]);
      }
    } else if rtype == TYPE_AAAA {
      if |d| == 16 {
        r := r.(v6 := r.v6 + [d]);
      }
    } else if rtype == TYPE_SVCB || rtype == TYPE_HTTPS {
      ok, r := ParseSvcParamHint(d, r);
    } else {
      ok := false;
    }
  }

  /** One round of ParseResponseA's loop. */
  method ParseAnswer(aBuffer: AutoBuffer, found: Addresses) returns (ok: bool, r: Addresses)
    requires aBuffer.Valid()
    modifies aBuffer`offset
    ensures aBuffer.Valid()
    ensures ok == AnswerAddresses(aBuffer.data, old(aBuffer.offset)).Some?
    ensures ok ==>
              var here := AnswerAddresses(aBuffer.data, old(aBuffer.offset)).value;
              aBuffer.offset == here.0 && r == found.Then(here.1)
  {
    hide SkippedNameEnd, U32;
    r := found;
    var rtype, class_, ttl, len, d;
    ok := SkipBufferName(aBuffer);
    if !ok { return; }
    ghost var q := aBuffer.offset;
    ok, rtype := aBuffer.ReadUINT16();
    if !ok { return; }
    ok, class_ := aBuffer.ReadUINT16();
    if !ok { return; }
    if class_ != 1 {
      ok := false;
      return;
    }
    ok, ttl := aBuffer.ReadUINT32();
    if !ok { return; }
    ok, len := aBuffer.ReadUINT16();
    if !ok { return; }
    assert aBuffer.offset == q + 10 && len == U16(aBuffer.data, q + 8);
    if len != 0 {
      ok, d := aBuffer.ReadBuffer(len);
      if !ok { return; }
      ok, r := ParseRdata(rtype, d, r);
    } else {
      assert aBuffer.data[q + 10..q + 10] == [];
      assert found.Then(NO_ADDRESS) == found;
    }
  }
}
