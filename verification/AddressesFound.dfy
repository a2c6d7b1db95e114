/**
 Which packets the forwarder's parser accepts and which addresses it finds, said through the separate
 decoder, the types and keys of RFC 1035, RFC 3596 and RFC 9460, and the bytes of the packet.
 */
module AddressesFound {
  import opened Wrappers
  import opened Bytes
  import opened Parser
  import opened Pointers
  import opened Decoder
  import Agreement
  import Bits

  // ----- the question

  /** The bytes hi, lo as a number. */
  function Number16(s: seq<byte>, p: nat): nat
    requires p + 2 <= |s|
  {
    256 * s[p] as nat + s[p + 1] as nat
  }

  /** With an uncompressed name that ends at q, exactly one question of class IN is accepted. */
  lemma {:induction false} QuestionExactly(s: seq<byte>, q: nat)
    requires |s| >= 12 && NameEnd(s, 12) == Some(q) && NamePointer(s, 12).None?
    ensures ParsedQuestion(s).Some? <==> Number16(s, 4) == 1 && q + 4 <= |s| && Number16(s, q + 2) == 1
    ensures ParsedQuestion(s).Some? ==>
              ParsedQuestion(s).value == Question(Number16(s, 0), Number16(s, 2), Number16(s, 6), Number16(s, q), q + 4)
  {
    QuestionEnds(s, 12);
  }

  lemma {:induction false} QuestionEnds(s: seq<byte>, p: nat)
    requires NameEnd(s, p).Some? && NamePointer(s, p).None?
    ensures QuestionNameEnd(s, p) == NameEnd(s, p)
    decreases |s| - p
  {
    if 0 < s[p] < 0x40 {
      QuestionEnds(s, p + 1 + s[p]);
    }
  }

  /** The ID of a packet, and the type of its one question, are the numbers at their places. */
  lemma {:induction false} QueryReads(s: seq<byte>, q: nat)
    requires |s| >= 12 && NameEnd(s, 12) == Some(q) && NamePointer(s, 12).None?
    ensures PacketId(s) == Number16(s, 0)
    ensures PacketType(s) == if Number16(s, 4) == 1 && q + 2 <= |s| then Number16(s, q) else 0
  {
    QuestionEnds(s, 12);
  }

  // ----- the bytes of addresses

  /** The whole groups of size bytes at the front. */
  function WholeGroups(value: seq<byte>, size: nat): seq<byte>
    requires size > 0
  {
    value[..|value| - |value| % size]
  }

  /** The values of all parameters with this key, whole groups only. */
  function ValuesOf(params: seq<Param>, key: uint16, size: nat): seq<byte>
    requires size > 0
  {
    if params == [] then []
    else (if params[0].key == key then WholeGroups(params[0].value, size) else []) + ValuesOf(params[1..], key, size)
  }

  /** The bytes of IPv4 and of IPv6 addresses. */
  datatype Data = Data(v4: seq<byte>, v6: seq<byte>) {
    function Then(next: Data): Data {
      Data(v4 + next.v4, v6 + next.v6)
    }
  }

  /** Those of a record whose fixed fields begin at q: of type A, AAAA, SVCB or HTTPS. */
  function RecordData(s: seq<byte>, q: nat, end: nat): Option<Data>
    requires q + 10 <= end <= |s|
  {
    var rtype, rdata := Number16(s, q), s[q + 10..end];
    if rdata == [] then Some(Data([], []))
    else if rtype == 64 || rtype == 65 then
      match NameEnd(s, q + 12)
      case None => None
      case Some(r) =>
        if r > end then None
        else
          match Params(s, r, end)
          case None => None
          case Some(params) => Some(Data(ValuesOf(params, 4, 4), ValuesOf(params, 6, 16)))
    else Some(Data(if rtype == 1 && |rdata| == 4 then rdata else [], if rtype == 28 && |rdata| == 16 then rdata else []))
  }

  /** Those of n records from p on, in order. */
  function AnswersData(s: seq<byte>, p: nat, n: nat): Option<Data>
    decreases n
  {
    if n == 0 then Some(Data([], []))
    else
      match RecordEnd(s, p)
      case None => None
      case Some((q, end)) =>
        match (RecordData(s, q, end), AnswersData(s, end, n - 1))
        case (Some(here), Some(rest)) => Some(here.Then(rest))
        case _ => None
  }

  /** Class IN, and of type A, CNAME, AAAA, SVCB or HTTPS or without RDATA. */
  predicate Known(s: seq<byte>, q: nat, end: nat)
    requires q + 10 <= end <= |s|
  {
    Number16(s, q + 2) == 1 && (end == q + 10 || Number16(s, q) in {1, 5, 28, 64, 65})
  }

  predicate AllKnown(s: seq<byte>, p: nat, n: nat)
    decreases n
  {
    n == 0 ||
    match RecordEnd(s, p)
    case None => false
    case Some((q, end)) => Known(s, q, end) && AllKnown(s, end, n - 1)
  }

  /** Four bytes as a number, the first the highest. */
  function Number32(d: seq<byte>, p: nat): nat
    requires p + 4 <= |d|
  {
    0x100_0000 * d[p] as nat + 0x1_0000 * d[p + 1] as nat + 0x100 * d[p + 2] as nat + d[p + 3] as nat
  }

  ghost predicate SpellsV4(v4: seq<uint32>, d: seq<byte>) {
    |d| == 4 * |v4| && forall i {:trigger v4[i]} :: 0 <= i < |v4| ==> v4[i] == Number32(d, 4 * i)
  }

  ghost predicate SpellsV6(v6: seq<Ipv6>, d: seq<byte>) {
    |d| == 16 * |v6| && forall i {:trigger v6[i]} :: 0 <= i < |v6| ==> v6[i] == d[16 * i..16 * i + 16]
  }

  /** The addresses are these bytes, four or sixteen each. */
  ghost predicate Spells(a: Addresses, d: Data) {
    SpellsV4(a.v4, d.v4) && SpellsV6(a.v6, d.v6)
  }

  lemma SpellsV4Then(a: seq<uint32>, d: seq<byte>, b: seq<uint32>, e: seq<byte>)
    requires SpellsV4(a, d) && SpellsV4(b, e)
    ensures SpellsV4(a + b, d + e)
  {
    forall i | 0 <= i < |a + b| ensures (a + b)[i] == Number32(d + e, 4 * i) {
      if i >= |a| {
        var j := i - |a|;
        assert (a + b)[i] == b[j] && 4 * i == |d| + 4 * j;
        assert (d + e)[|d| + 4 * j] == e[4 * j] && (d + e)[|d| + 4 * j + 1] == e[4 * j + 1];
        assert (d + e)[|d| + 4 * j + 2] == e[4 * j + 2] && (d + e)[|d| + 4 * j + 3] == e[4 * j + 3];
      }
    }
  }

  lemma SpellsV6Then(a: seq<Ipv6>, d: seq<byte>, b: seq<Ipv6>, e: seq<byte>)
    requires SpellsV6(a, d) && SpellsV6(b, e)
    ensures SpellsV6(a + b, d + e)
  {
    forall i | 0 <= i < |a + b| ensures (a + b)[i] == (d + e)[16 * i..16 * i + 16] {
      if i >= |a| {
        var j := i - |a|;
        assert (a + b)[i] == b[j] && 16 * i == |d| + 16 * j;
        assert (d + e)[|d| + 16 * j..|d| + 16 * j + 16] == e[16 * j..16 * j + 16];
      } else {
        assert (d + e)[16 * i..16 * i + 16] == d[16 * i..16 * i + 16];
      }
    }
  }

  lemma {:induction false} V4Spelled(value: seq<byte>, p: nat)
    requires p <= |value|
    ensures SpellsV4(V4Hints(value, p), WholeGroups(value[p..], 4))
    decreases |value| - p
  {
    hide U32;
    if p + 4 <= |value| {
      V4Spelled(value, p + 4);
      OneNumber(value, p);
      SpellsV4Then([U32(value, p)], value[p..p + 4], V4Hints(value, p + 4), WholeGroups(value[p + 4..], 4));
      GroupFirst(value, p, 4);
    }
  }

  lemma OneNumber(value: seq<byte>, p: nat)
    requires p + 4 <= |value|
    ensures SpellsV4([U32(value, p)], value[p..p + 4])
  {
    assert Number32(value[p..p + 4], 0) == U32(value, p);
  }

  lemma GroupFirst(value: seq<byte>, p: nat, size: nat)
    requires size > 0 && p + size <= |value|
    ensures value[p..p + size] + WholeGroups(value[p + size..], size) == WholeGroups(value[p..], size)
  {
    var n := |value| - p;
    assert (n - size) % size == n % size by {
      OneGroupLess(n, size);
    }
    var rest := n - size - n % size;
    assert value[p + size..][..rest] == value[p + size..p + size + rest];
    assert value[p..][..size + rest] == value[p..p + size + rest];
  }

  lemma OneGroupLess(n: nat, size: nat)
    requires 0 < size <= n
    ensures (n - size) % size == n % size && n % size <= n - size
  {
    var q, r := n / size, n % size;
    assert n == q * size + r;
    assert q >= 1;
    assert n - size == (q - 1) * size + r;
    Bits.DivMod(n - size, size, q - 1, r);
  }

  lemma {:induction false} V6Spelled(value: seq<byte>, p: nat)
    requires p <= |value|
    ensures SpellsV6(V6Hints(value, p), WholeGroups(value[p..], 16))
    decreases |value| - p
  {
    if p + 16 <= |value| {
      V6Spelled(value, p + 16);
      var one: Ipv6 := value[p..p + 16];
      assert SpellsV6([one], value[p..p + 16]);
      SpellsV6Then([one], value[p..p + 16], V6Hints(value, p + 16), WholeGroups(value[p + 16..], 16));
      GroupFirst(value, p, 16);
    }
  }

  // ----- one record

  lemma ParamSpelled(key: uint16, value: seq<byte>)
    ensures Spells(ParamAddresses(key, value), Data(if key == 4 then WholeGroups(value, 4) else [],
                                                    if key == 6 then WholeGroups(value, 16) else []))
  {
    assert value[0..] == value;
    V4Spelled(value, 0);
    V6Spelled(value, 0);
  }

  function ParamsData(params: seq<Param>): Data {
    Data(ValuesOf(params, 4, 4), ValuesOf(params, 6, 16))
  }

  lemma ParamsDataHead(first: Param, rest: seq<Param>)
    ensures ParamsData([first] + rest) ==
            Data(if first.key == 4 then WholeGroups(first.value, 4) else [],
                 if first.key == 6 then WholeGroups(first.value, 16) else []).Then(ParamsData(rest))
  {
    assert ([first] + rest)[1..] == rest;
  }

  lemma SpellsThen(a: Addresses, d: Data, b: Addresses, e: Data)
    requires Spells(a, d) && Spells(b, e)
    ensures Spells(a.Then(b), d.Then(e))
  {
    SpellsV4Then(a.v4, d.v4, b.v4, e.v4);
    SpellsV6Then(a.v6, d.v6, b.v6, e.v6);
  }

  /** The parameters from p on, which the parser reads inside lo..end. */
  lemma {:induction false} ParamsSpelled(s: seq<byte>, lo: nat, p: nat, end: nat)
    requires lo <= p <= end <= |s| && Params(s, p, end).Some?
    ensures ParamListAddresses(s[lo..end], p - lo).Some?
    ensures Spells(ParamListAddresses(s[lo..end], p - lo).value, ParamsData(Params(s, p, end).value))
    decreases end - p
  {
    hide U16, ParamAddresses, Spells;
    var d := s[lo..end];
    if p == end {
      assert Spells(NO_ADDRESS, Data([], [])) by {
        NothingSpelled();
      }
    } else {
      var next := p + 4 + U16(s, p + 2);
      Agreement.ParamInSlice(s, lo, p, end, next - p);
      ParamsSpelled(s, lo, next, end);
      var first, rest := Param(U16(s, p), s[p + 4..next]), Params(s, next, end).value;
      ParamsDataHead(first, rest);
      ParamSpelled(first.key, first.value);
      SpellsThen(ParamAddresses(first.key, first.value),
                 Data(if first.key == 4 then WholeGroups(first.value, 4) else [],
                       if first.key == 6 then WholeGroups(first.value, 16) else []),
                 ParamListAddresses(d, next - lo).value, ParamsData(rest));
    }
  }

  lemma NothingSpelled()
    ensures Spells(NO_ADDRESS, Data([], []))
  {
  }

  lemma {:induction false} EndSkipped(s: seq<byte>, lo: nat, hi: nat, p: nat)
    requires lo <= p && hi <= |s| && NameEnd(s, p).Some? && NameEnd(s, p).value <= hi
    ensures SkippedNameEnd(s[lo..hi], p - lo) == Some(NameEnd(s, p).value - lo)
    decreases |s| - p
  {
    assert s[lo..hi][p - lo] == s[p];
    if 0 < s[p] < 0x40 {
      EndGrows(s, p + 1 + s[p]);
      EndSkipped(s, lo, hi, p + 1 + s[p]);
    }
  }

  lemma EndGrows(s: seq<byte>, p: nat)
    requires NameEnd(s, p).Some?
    ensures p < NameEnd(s, p).value
  {
  }

  lemma SvcbSpelled(s: seq<byte>, lo: nat, r: nat, end: nat)
    requires lo + 2 <= r <= end <= |s| && NameEnd(s, lo + 2) == Some(r) && Params(s, r, end).Some?
    ensures SvcbAddresses(s[lo..end]).Some?
    ensures Spells(SvcbAddresses(s[lo..end]).value, ParamsData(Params(s, r, end).value))
  {
    hide NameEnd, SkippedNameEnd, Params, ParamListAddresses, Spells;
    EndSkipped(s, lo, end, lo + 2);
    ParamsSpelled(s, lo, r, end);
  }

  lemma RdataSpelled(s: seq<byte>, q: nat, end: nat)
    requires q + 10 <= end <= |s| && RecordData(s, q, end).Some?
    ensures var found := RdataAddresses(U16(s, q), s[q + 10..end]);
            && (found.Some? <==> end == q + 10 || U16(s, q) in {1, 5, 28, 64, 65})
            && (found.Some? ==> Spells(found.value, RecordData(s, q, end).value))
  {
    hide NameEnd, Params, SvcbAddresses;
    var rtype, rdata := U16(s, q), s[q + 10..end];
    assert rtype == Number16(s, q);
    if rdata != [] && (rtype == 64 || rtype == 65) {
      hide Spells;
      SvcbSpelled(s, q + 10, NameEnd(s, q + 12).value, end);
    } else if rtype == 1 && |rdata| == 4 {
      OneNumber(rdata, 0);
      assert rdata[0..0 + 4] == rdata;
    }
  }

  /** A record the decoder reads, the parser takes exactly when its type and class are known to it. */
  lemma RecordSpelled(s: seq<byte>, p: nat, q: nat, end: nat)
    requires RecordEnd(s, p) == Some((q, end)) && RecordData(s, q, end).Some?
    ensures AnswerAddresses(s, p).Some? <==> Known(s, q, end)
    ensures Known(s, q, end) ==>
              && AnswerAddresses(s, p).value.0 == end
              && Spells(AnswerAddresses(s, p).value.1, RecordData(s, q, end).value)
  {
    assert SkippedNameEnd(s, p) == Some(q) && end == q + 10 + U16(s, q + 8) by {
      EndSkipped(s, 0, |s|, p);
      assert s[0..|s|] == s;
    }
    hide NameEnd, SkippedNameEnd, RdataAddresses, RecordData, RecordEnd, Spells, AnswerAddresses;
    RdataSpelled(s, q, end);
    Agreement.RecordParses(s, p, q, end);
  }

  // ----- all of them

  lemma {:induction false} AnswersSpelled(s: seq<byte>, p: nat, n: nat)
    requires AnswersData(s, p, n).Some?
    ensures AnswersAddresses(s, p, n).Some? <==> AllKnown(s, p, n)
    ensures AllKnown(s, p, n) ==> Spells(AnswersAddresses(s, p, n).value, AnswersData(s, p, n).value)
    decreases n
  {
    hide RecordEnd, RecordData, AnswerAddresses, Known, Spells;
    if n == 0 {
      NothingSpelled();
    } else {
      var (q, end) := RecordEnd(s, p).value;
      RecordSpelled(s, p, q, end);
      AnswersSpelled(s, end, n - 1);
      if Known(s, q, end) && AllKnown(s, end, n - 1) {
        SpellsThen(AnswerAddresses(s, p).value.1, RecordData(s, q, end).value,
                   AnswersAddresses(s, end, n - 1).value, AnswersData(s, end, n - 1).value);
      }
    }
  }

  /**
   A response whose question and answers the decoder reads is accepted exactly when its answers are of
   class IN and of the five types, or empty; the addresses found are then, in record order, those
   of the A and AAAA records of the right length and of the ipv4hint and ipv6hint parameters.
   */
  lemma {:induction false} FindsExactly(s: seq<byte>, q: nat)
    requires |s| >= 12 && NameEnd(s, 12) == Some(q) && NamePointer(s, 12).None?
    requires AnswersData(s, q + 4, Number16(s, 6)).Some?
    ensures ParsedResponse(s).Some? <==>
            && Number16(s, 4) == 1 && q + 4 <= |s| && Number16(s, q + 2) == 1
            && AllKnown(s, q + 4, Number16(s, 6))
    ensures ParsedResponse(s).Some? ==>
              var r := ParsedResponse(s).value;
              && r.question == Question(Number16(s, 0), Number16(s, 2), Number16(s, 6), Number16(s, q), q + 4)
              && Spells(r.addresses, AnswersData(s, q + 4, Number16(s, 6)).value)
  {
    hide ParsedQuestion, AnswersData, AllKnown, AnswersAddresses, Spells;
    QuestionExactly(s, q);
    AnswersSpelled(s, q + 4, Number16(s, 6));
  }
}
