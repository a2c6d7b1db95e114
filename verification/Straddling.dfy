/**
 A packet on which dropping IPv4 hints and then IPv6 hints is not dropping both: a later record's
 owner name points back into the middle of a removed hint.
 */
module Straddling {
  import opened Wrappers
  import opened Bytes
  import opened Parser
  import opened Rewriter
  import opened Relocation
  import opened RewriteTwice
  import opened InTurn
  import opened Composition

  /** One question for the root, two answers announced. */
  const HEAD: seq<byte> := [0, 0, 0x80, 0, 0, 1, 0, 2, 0, 0, 0, 0, 0, 0, 0x41, 0, 1]

  /** TYPE HTTPS, class IN, TTL 0; then, after a length, SvcPriority 1 and the root as TargetName. */
  const FIXED: seq<byte> := [0, 0x41, 0, 1, 0, 0, 0, 0]
  const SERVICE: seq<byte> := [0, 1, 0]

  function V6Hint(): (r: seq<byte>)
    ensures |r| == 20
  {
    [0, 6, 0, 16] + seq(16, _ => 0 as byte)
  }

  function V4Hint(): (r: seq<byte>)
    ensures |r| == 28
  {
    [0, 4, 0, 24] + seq(24, _ => 0 as byte)
  }

  /** A record of the root with these parameters, and one whose owner points to t. */
  function Packet(params: seq<byte>, t: nat): seq<byte>
    requires |params| < 100 && t < 0x100
  {
    FirstRecord(params) + SecondRecord(t)
  }

  function FirstRecord(params: seq<byte>): seq<byte>
    requires |params| < 100
  {
    HEAD + [0] + FIXED + PutU16(3 + |params|) + (SERVICE + params)
  }

  function SecondRecord(t: nat): seq<byte>
    requires t < 0x100
  {
    [0xC0, t] + FIXED + [0, 3] + SERVICE
  }

  /** Where the pieces of a packet are. */
  lemma PacketBytes(params: seq<byte>, t: nat)
    requires |params| < 100 && t < 0x100
    ensures var s, e := Packet(params, t), 31 + |params|;
            && |s| == e + 15 && s[..17] == HEAD && s[17] == 0 && s[18..26] == FIXED && U16(s, 18) == TYPE_HTTPS
            && U16(s, 26) == 3 + |params| && s[28..30] == SERVICE[..2] && s[30] == 0 && s[31..e] == params
            && s[e] == 0xC0 && s[e + 1] == t && s[e + 2..e + 10] == FIXED && U16(s, e + 2) == TYPE_HTTPS
            && U16(s, e + 10) == 3 && s[e + 12..e + 14] == SERVICE[..2] && s[e + 14] == 0
  {
    var s, e := Packet(params, t), 31 + |params|;
    var first, second := FirstRecord(params), SecondRecord(t);
    assert first[..17] == HEAD && first[17] == 0 && first[18..26] == FIXED && first[18] == 0 && first[19] == 0x41;
    assert first[26..28] == PutU16(3 + |params|) && first[28..30] == SERVICE[..2] && first[30] == 0 && first[31..] == params;
    assert second[2..10] == FIXED && second[12..14] == SERVICE[..2];
    assert s[..e] == first && s[e..] == second;
    assert s[..17] == first[..17] && s[18..26] == first[18..26] && s[28..30] == first[28..30] && s[31..e] == first[31..];
    assert s[26] == first[26..28][0] && s[27] == first[26..28][1];
    assert s[e + 2..e + 10] == second[2..10] && s[e + 12..e + 14] == second[12..14];
    assert forall i :: 0 <= i < 15 ==> s[e + i] == second[i];
  }

  lemma RootCopied(s: seq<byte>, p: nat, removed: Removed)
    requires p < |s| && s[p] == 0
    ensures CopiedName(s, p, removed) == Copied(p + 1, [0])
  {
  }

  lemma FirstKept(s: seq<byte>, e: nat, drop: Families, k: Kept)
    requires 31 <= e <= |s| && U16(s, 18) == TYPE_HTTPS && s[28..30] == SERVICE[..2] && s[30] == 0
    requires k.Kept? && k == KeptParams(s, 31, e, drop)
    ensures KeptRdata(s, 18, e, TYPE_HTTPS, drop, []) == Kept(SERVICE + k.bytes, k.removed)
  {
    hide KeptParams, U16, CopiedName;
    RootCopied(s, 30, []);
    assert SERVICE[..2] + [0] == SERVICE;
  }

  lemma FirstJoins(s: seq<byte>, e: nat, drop: Families, k: Kept)
    requires 31 <= e <= |s| && s[17] == 0 && U16(s, 18) == TYPE_HTTPS && U16(s, 26) == e - 28 && s[18..26] == FIXED
    requires k.Kept? && |k.bytes| < 100 && KeptRdata(s, 18, e, TYPE_HTTPS, drop, []) == Kept(SERVICE + k.bytes, k.removed)
    ensures CopiedAnswer(s, 17, TYPE_HTTPS, drop, [])
         == Answer(e, [0] + FIXED + PutU16(3 + |k.bytes|) + (SERVICE + k.bytes), k.removed)
  {
    hide KeptRdata, U16, PutU16, CopiedName, CopiedAnswer;
    RootCopied(s, 17, []);
    AnswerIs(s, 17, TYPE_HTTPS, drop, [], 18, e);
    assert |SERVICE + k.bytes| % 0x1_0000 == 3 + |k.bytes|;
  }

  lemma FirstCopied(params: seq<byte>, t: nat, drop: Families, k: Kept)
    requires |params| < 100 && t < 0x100 && k.Kept? && |k.bytes| < 100
    requires 31 + |params| <= |Packet(params, t)| && k == KeptParams(Packet(params, t), 31, 31 + |params|, drop)
    ensures CopiedAnswer(Packet(params, t), 17, TYPE_HTTPS, drop, [])
         == Answer(31 + |params|, [0] + FIXED + PutU16(3 + |k.bytes|) + (SERVICE + k.bytes), k.removed)
  {
    hide Packet, KeptParams, KeptRdata, U16, PutU16, CopiedAnswer;
    PacketBytes(params, t);
    FirstKept(Packet(params, t), 31 + |params|, drop, k);
    FirstJoins(Packet(params, t), 31 + |params|, drop, k);
  }

  lemma SecondCopied(params: seq<byte>, t: nat, drop: Families, removed: Removed)
    requires |params| < 100 && t < 0x100
    ensures CopiedAnswer(Packet(params, t), 31 + |params|, TYPE_HTTPS, drop, removed)
         == Answer(46 + |params|, PutPointer(Moved(removed, t)) + FIXED + PutU16(3) + SERVICE, [])
  {
    var s, e := Packet(params, t), 31 + |params|;
    PacketBytes(params, t);
    hide Packet, FirstRecord, SecondRecord, PutPointer, DeletedBefore;
    Wrapped(t);
    assert PointerAt(s, e) == t;
    assert CopiedName(s, e, removed) == Copied(e + 2, PutPointer(Moved(removed, t)));
    RootCopied(s, e + 14, removed);
    AnswerIs(s, e, TYPE_HTTPS, drop, removed, e + 2, e + 15);
    assert SERVICE[..2] + [0] + [] == SERVICE;
    assert KeptRdata(s, e + 2, e + 15, TYPE_HTTPS, drop, removed) == Kept(SERVICE, []);
  }

  lemma QuestionParsed(params: seq<byte>, t: nat)
    requires |params| < 100 && t < 0x100
    ensures ParsedQuestion(Packet(params, t)) == Some(Question(0, 0x8000, 2, TYPE_HTTPS, 17))
  {
    var s := Packet(params, t);
    PacketBytes(params, t);
    hide Packet;
    assert forall i :: 0 <= i < 17 ==> s[i] == HEAD[i];
    assert s[12] == 0;
  }

  /** The rewrite of such a packet is one again, its pointer relocated. */
  lemma PacketRewrites(params: seq<byte>, t: nat, drop: Families, k: Kept)
    requires |params| < 100 && t < 0x100 && k.Kept? && |k.bytes| < 100
    requires 31 + |params| <= |Packet(params, t)| && k == KeptParams(Packet(params, t), 31, 31 + |params|, drop)
    requires 0 <= Moved(k.removed, t) < 0x100
    ensures Rewritten(Packet(params, t), TYPE_HTTPS, drop) == Some(Packet(k.bytes, Moved(k.removed, t)))
  {
    var s, e, t2 := Packet(params, t), 31 + |params|, Moved(k.removed, t);
    var a := Answer(e, [0] + FIXED + PutU16(3 + |k.bytes|) + (SERVICE + k.bytes), k.removed);
    var b := Answer(e + 15, PutPointer(t2) + FIXED + PutU16(3) + SERVICE, []);
    PacketBytes(params, t);
    QuestionParsed(params, t);
    FirstCopied(params, t, drop, k);
    SecondCopied(params, t, drop, k.removed);
    hide ParsedQuestion, CopiedAnswer, KeptParams, Packet, DeletedBefore, PutU16;
    var st := Start(s, 17);
    var st1 := Advance(st, a);
    var st2 := Advance(st1, b);
    assert st1.removed == k.removed;
    assert CopiedAnswers(s, 2, TYPE_HTTPS, drop, st2) == Some(st2);
    assert CopiedAnswers(s, 2, TYPE_HTTPS, drop, st1) == Some(st2);
    assert CopiedAnswers(s, 2, TYPE_HTTPS, drop, st) == Some(st2);
    CountsAreThere(k.bytes, t2, st2.out);
  }

  lemma CountsAreThere(params: seq<byte>, t: nat, out: seq<byte>)
    requires |params| < 100 && t < 0x100
    requires out == HEAD + ([0] + FIXED + PutU16(3 + |params|) + (SERVICE + params)) + (PutPointer(t) + FIXED + PutU16(3) + SERVICE)
    ensures out == Packet(params, t) && WithCounts(out, 2) == out
  {
    assert PutPointer(t) == [0xC0, t] && PutU16(3) == [0, 3] && PutU16(2) == [0, 2];
    assert out[..6] + [0, 2] + [0, 0, 0, 0] + out[12..] == out;
  }

  // ----- the hints of such a packet

  /** One more hint at p, in front of the rest. */
  lemma HintAt(s: seq<byte>, p: nat, e: nat, drop: Families, key: uint16, len: nat)
    requires 4 <= len && p + len <= e <= |s| && U16(s, p) == key && U16(s, p + 2) == len - 4
    ensures KeptParams(s, p, e, drop) == JoinParam(Drops(drop, key), p, s[p..p + len], KeptParams(s, p + len, e, drop))
  {
  }

  lemma HintBegins(s: seq<byte>, p: nat, hint: seq<byte>, key: byte, len: byte)
    requires Holds(s, p, hint) && 4 <= |hint| && hint[0] == 0 && hint[1] == key && hint[2] == 0 && hint[3] == len
    ensures U16(s, p) == key && U16(s, p + 2) == len
  {
    assert s[p] == s[p..p + |hint|][0] && s[p + 1] == s[p..p + |hint|][1];
    assert s[p + 2] == s[p..p + |hint|][2] && s[p + 3] == s[p..p + |hint|][3];
  }

  /** The hint of each family, read where it is. */
  lemma HintsThere(s: seq<byte>, p: nat)
    ensures Holds(s, p, V6Hint()) ==> U16(s, p) == IPV6HINT && U16(s, p + 2) == 16 && s[p..p + 20] == V6Hint()
    ensures Holds(s, p, V4Hint()) ==> U16(s, p) == IPV4HINT && U16(s, p + 2) == 24 && s[p..p + 28] == V4Hint()
  {
    if Holds(s, p, V6Hint()) {
      HintBegins(s, p, V6Hint(), 6, 16);
    }
    if Holds(s, p, V4Hint()) {
      HintBegins(s, p, V4Hint(), 4, 24);
    }
  }

  const BOTH_HINTS: seq<byte> := V6Hint() + V4Hint()

  lemma BothKept(t: nat, drop: Families)
    requires t < 0x100
    ensures |BOTH_HINTS| == 48 && |Packet(BOTH_HINTS, t)| == 94
    ensures KeptParams(Packet(BOTH_HINTS, t), 31, 79, drop) ==
            JoinParam(drop.v6, 31, V6Hint(), JoinParam(drop.v4, 51, V4Hint(), Kept([], [])))
  {
    var s := Packet(BOTH_HINTS, t);
    PacketBytes(BOTH_HINTS, t);
    HoldsParts(s, 31, V6Hint(), V4Hint());
    hide Packet, V6Hint, V4Hint;
    HintsThere(s, 31);
    HintsThere(s, 51);
    HintAt(s, 31, 79, drop, IPV6HINT, 20);
    HintAt(s, 51, 79, drop, IPV4HINT, 28);
  }

  lemma V6Kept(t: nat, drop: Families)
    requires t < 0x100
    ensures |Packet(V6Hint(), t)| == 66
    ensures KeptParams(Packet(V6Hint(), t), 31, 51, drop) == JoinParam(drop.v6, 31, V6Hint(), Kept([], []))
  {
    var s := Packet(V6Hint(), t);
    PacketBytes(V6Hint(), t);
    assert Holds(s, 31, V6Hint());
    hide Packet, V6Hint;
    HintsThere(s, 31);
    HintAt(s, 31, 51, drop, IPV6HINT, 20);
  }

  const V4_ONLY := Families(true, false)
  const V6_ONLY := Families(false, true)

  /**
   The second record points to offset 52, inside the ipv4hint at 51. Dropping IPv4 moves the pointer
   to 24, in front of the ipv6hint, which then no longer counts; dropping both at once counts both.
   */
  lemma {:induction false} DroppingInTurnDiffers()
    ensures Rewritten(Packet(BOTH_HINTS, 52), TYPE_HTTPS, V4_ONLY) == Some(Packet(V6Hint(), 24))
    ensures Rewritten(Packet(V6Hint(), 24), TYPE_HTTPS, V6_ONLY) == Some(Packet([], 24))
    ensures Rewritten(Packet(BOTH_HINTS, 52), TYPE_HTTPS, Both(V4_ONLY, V6_ONLY)) == Some(Packet([], 4))
    ensures Packet([], 24) != Packet([], 4)
    ensures !InTurnIsAtOnce(Packet(BOTH_HINTS, 52), TYPE_HTTPS, V4_ONLY, V6_ONLY)
  {
    hide Packet, V6Hint, V4Hint, Rewritten, KeptParams, DeletedBefore, InTurnIsAtOnce;
    RelocationsDiffer();
    assert Rewritten(Packet(BOTH_HINTS, 52), TYPE_HTTPS, V4_ONLY) == Some(Packet(V6Hint(), 24)) by {
      BothKept(52, V4_ONLY);
      assert V6Hint() + [] == V6Hint();
      PacketRewrites(BOTH_HINTS, 52, V4_ONLY, Kept(V6Hint(), [(51, 28)]));
    }
    assert Rewritten(Packet(V6Hint(), 24), TYPE_HTTPS, V6_ONLY) == Some(Packet([], 24)) by {
      V6Kept(24, V6_ONLY);
      PacketRewrites(V6Hint(), 24, V6_ONLY, Kept([], [(31, 20)]));
    }
    assert Rewritten(Packet(BOTH_HINTS, 52), TYPE_HTTPS, Both(V4_ONLY, V6_ONLY)) == Some(Packet([], 4)) by {
      BothKept(52, Both(V4_ONLY, V6_ONLY));
      PacketRewrites(BOTH_HINTS, 52, Both(V4_ONLY, V6_ONLY), Kept([], [(31, 20), (51, 28)]));
    }
    PacketBytes([], 24);
    PacketBytes([], 4);
    RewritesComposeExactly(Packet(BOTH_HINTS, 52), TYPE_HTTPS, V4_ONLY, V6_ONLY);
  }

  lemma RelocationsDiffer()
    ensures Moved([(51, 28)], 52) == 24 && Moved([(31, 20)], 24) == 24 && Moved([(31, 20), (51, 28)], 52) == 4
  {
    assert [(31, 20), (51, 28)][..1] == [(31, 20)];
  }
}
