/** Where the output of a rewrite has the pieces it copied. */
module Copies {
  import opened Bytes
  import opened Rewriter
  import opened Relocation

  /** The second rewrite meets a parameter the first one kept. */
  lemma KeptByFirst(s: seq<byte>, p: nat, end: nat, o: seq<byte>, p2: nat, end2: nat, d1: Families)
    requires p < end <= |s| && KeptParams(s, p, end, d1).Kept? && Holds(o, p2, KeptParams(s, p, end, d1).bytes)
    requires end2 == p2 + |KeptParams(s, p, end, d1).bytes|
    requires !Drops(d1, U16(s, p))
    ensures var len := ParamLength(s, p, end);
            && p2 + len <= end2 && s[p..p + len] == o[p2..p2 + len]
            && U16(s, p) == U16(o, p2) && ParamLength(o, p2, end2) == len
            && Holds(o, p2 + len, KeptParams(s, p + len, end, d1).bytes)
            && end2 == p2 + len + |KeptParams(s, p + len, end, d1).bytes|
  {
    var len := ParamLength(s, p, end);
    HoldsParts(o, p2, s[p..p + len], KeptParams(s, p + len, end, d1).bytes);
    U16OfSlice(s, p, p + len, 0);
    U16OfSlice(s, p, p + len, 2);
    U16OfSlice(o, p2, p2 + len, 0);
    U16OfSlice(o, p2, p2 + len, 2);
  }

  /** [p2, end2) of o is [p, end) of s without the parameters d1 drops. */
  ghost predicate Aligned(s: seq<byte>, p: nat, end: nat, o: seq<byte>, p2: nat, end2: nat, d1: Families)
    requires p <= end <= |s| && p2 <= end2 <= |o|
    decreases end - p
  {
    if p == end then p2 == end2
    else
      var len := ParamLength(s, p, end);
      && len > 0
      && if Drops(d1, U16(s, p)) then Aligned(s, p + len, end, o, p2, end2, d1)
         else SameParam(s, p, o, p2, end2, len) && Aligned(s, p + len, end, o, p2 + len, end2, d1)
  }

  ghost predicate SameParam(s: seq<byte>, p: nat, o: seq<byte>, p2: nat, end2: nat, len: nat)
    requires 4 <= len && p + len <= |s| && end2 <= |o|
  {
    && p2 + len <= end2 && s[p..p + len] == o[p2..p2 + len]
    && U16(s, p) == U16(o, p2) && ParamLength(o, p2, end2) == len
  }

  lemma {:induction false} HoldsAligned(s: seq<byte>, p: nat, end: nat, o: seq<byte>, p2: nat, end2: nat, d1: Families)
    requires p <= end <= |s| && KeptParams(s, p, end, d1).Kept? && Holds(o, p2, KeptParams(s, p, end, d1).bytes)
    requires end2 == p2 + |KeptParams(s, p, end, d1).bytes|
    ensures Aligned(s, p, end, o, p2, end2, d1)
    decreases end - p
  {
    hide U16;
    if p < end {
      var len := ParamLength(s, p, end);
      if Drops(d1, U16(s, p)) {
        HoldsAligned(s, p + len, end, o, p2, end2, d1);
      } else {
        KeptByFirst(s, p, end, o, p2, end2, d1);
        HoldsAligned(s, p + len, end, o, p2 + len, end2, d1);
      }
    }
  }

  lemma SvcbHolds(s: seq<byte>, p: nat, end: nat, o: seq<byte>, p2: nat, d1: Families, first: Removed, q: nat, q2: nat)
    requires p <= end <= |s| && KeptSvcb(s, p, end, d1, first).Kept?
    requires Holds(o, p2, KeptSvcb(s, p, end, d1, first).bytes)
    requires q == CopiedName(s, p + 2, first).end && q2 == p2 + q - p
    ensures s[p..p + 2] == o[p2..p2 + 2] && Holds(o, p2 + 2, CopiedName(s, p + 2, first).bytes)
    ensures Holds(o, q2, KeptParams(s, q, end, d1).bytes)
    ensures p2 + |KeptSvcb(s, p, end, d1, first).bytes| == q2 + |KeptParams(s, q, end, d1).bytes|
  {
    var target := CopiedName(s, p + 2, first).bytes;
    var params := KeptParams(s, q, end, d1).bytes;
    HoldsParts(o, p2, s[p..p + 2] + target, params);
    HoldsParts(o, p2, s[p..p + 2], target);
  }

  lemma FieldsHold(o: seq<byte>, p2: nat, owner: seq<byte>, fixed: seq<byte>, len: uint16, rdata: seq<byte>)
    requires Holds(o, p2, owner + fixed + PutU16(len) + rdata) && |fixed| == 8
    ensures var q2 := p2 + |owner|;
            && Holds(o, p2, owner) && q2 + 10 <= |o| && o[q2..q2 + 8] == fixed
            && U16(o, q2) == U16(fixed, 0) && U16(o, q2 + 8) == len && Holds(o, q2 + 10, rdata)
  {
    var q2 := p2 + |owner|;
    HoldsParts(o, p2, owner + fixed + PutU16(len), rdata);
    HoldsParts(o, p2, owner + fixed, PutU16(len));
    HoldsParts(o, p2, owner, fixed);
    U16OfSlice(o, q2, q2 + 8, 0);
    U16OfSlice(o, q2 + 8, q2 + 10, 0);
  }

  lemma AnswerFields(s: seq<byte>, p: nat, qtype: uint16, d1: Families, first: Removed, q: nat, k1: Kept)
    requires CopiedAnswer(s, p, qtype, d1, first).Answer?
    requires q == CopiedName(s, p, first).end
    requires k1 == KeptRdata(s, q, CopiedAnswer(s, p, qtype, d1, first).end, qtype, d1, first)
    ensures k1.Kept? && |k1.bytes| < 0x1_0000 && q + 10 <= |s|
    ensures var a := CopiedAnswer(s, p, qtype, d1, first);
            a.end == q + 10 + U16(s, q + 8) && a.removed == k1.removed && (U16(s, q) == qtype || first == [])
    ensures CopiedAnswer(s, p, qtype, d1, first).bytes == CopiedName(s, p, first).bytes + s[q..q + 8] + PutU16(|k1.bytes|) + k1.bytes
  {
    hide CopiedName, CopiedAnswer, JoinAnswer, KeptRdata;
    AnswerParts(s, p, qtype, d1, first);
    KeptRdataLengths(s, q, CopiedAnswer(s, p, qtype, d1, first).end, qtype, d1, first);
    JoinedFields(CopiedAnswer(s, p, qtype, d1, first).end, CopiedName(s, p, first).bytes, s[q..q + 8], k1);
  }

  /** Where o has the fields of a record the first rewrite copied to p2. */
  lemma AnswerHolds(s: seq<byte>, p: nat, o: seq<byte>, p2: nat, qtype: uint16, d1: Families, first: Removed, q: nat,
          q2: nat, k1: Kept)
    requires CopiedAnswer(s, p, qtype, d1, first).Answer? && Holds(o, p2, CopiedAnswer(s, p, qtype, d1, first).bytes)
    requires q == CopiedName(s, p, first).end
    requires k1 == KeptRdata(s, q, CopiedAnswer(s, p, qtype, d1, first).end, qtype, d1, first)
    requires q2 == p2 + q - p
    ensures && k1.Kept? && Holds(o, p2, CopiedName(s, p, first).bytes)
            && q2 + 10 <= |o| && o[q2..q2 + 8] == s[q..q + 8] && U16(o, q2) == U16(s, q) && U16(o, q2 + 8) == |k1.bytes|
            && Holds(o, q2 + 10, k1.bytes) && q2 + 10 + |k1.bytes| == p2 + |CopiedAnswer(s, p, qtype, d1, first).bytes|
    ensures var a := CopiedAnswer(s, p, qtype, d1, first);
            a.end == q + 10 + U16(s, q + 8) && a.removed == k1.removed && (U16(s, q) == qtype || first == [])
  {
    hide CopiedName, KeptRdata, CopiedAnswer;
    AnswerParts(s, p, qtype, d1, first);
    var owner := CopiedName(s, p, first).bytes;
    AnswerFields(s, p, qtype, d1, first, q, k1);
    FieldsHold(o, p2, owner, s[q..q + 8], |k1.bytes|, k1.bytes);
    U16OfSlice(s, q, q + 8, 0);
  }

  /** What o has at p2, where it holds the copy of the name at p. */
  lemma NameHolds(s: seq<byte>, p: nat, removed: Removed, o: seq<byte>, p2: nat)
    requires CopiedName(s, p, removed).Copied? && Holds(o, p2, CopiedName(s, p, removed).bytes)
    ensures p < |s| && p2 < |o| && p2 + |CopiedName(s, p, removed).bytes| <= |o|
    ensures s[p] == 0 || 0 < s[p] < 0x40 || s[p] >= 0xC0
    ensures s[p] == 0 ==> o[p2] == 0 && |CopiedName(s, p, removed).bytes| == 1
    ensures s[p] >= 0xC0 ==>
              && p + 2 <= |s| && p2 + 2 <= |o| && o[p2] >= 0xC0 && |CopiedName(s, p, removed).bytes| == 2
              && Holds(o, p2, PutPointer(Moved(removed, PointerAt(s, p))))
    ensures 0 < s[p] < 0x40 ==>
              var next, next2 := p + 1 + s[p], p2 + 1 + s[p];
              && next <= |s| && next2 <= |o| && o[p2] == s[p] && Holds(o, p2, s[p..next])
              && CopiedName(s, next, removed).Copied? && Holds(o, next2, CopiedName(s, next, removed).bytes)
              && p2 + |CopiedName(s, p, removed).bytes| == next2 + |CopiedName(s, next, removed).bytes|
  {
    hide PutPointer, PointerAt, DeletedBefore;
    if s[p] >= 0xC0 {
      PointerRoundTrip(o, p2, Moved(removed, PointerAt(s, p)));
    } else if s[p] == 0 {
      assert o[p2] == o[p2..p2 + 1][0];
    } else {
      HoldsParts(o, p2, s[p..p + 1 + s[p]], CopiedName(s, p + 1 + s[p], removed).bytes);
      assert o[p2] == o[p2..p2 + |s[p..p + 1 + s[p]]|][0] == s[p];
    }
  }

  lemma {:induction false} NameEndAlike(s: seq<byte>, p: nat, removed: Removed, other: Removed)
    requires CopiedName(s, p, removed).Copied?
    ensures CopiedName(s, p, other).Copied? && CopiedName(s, p, other).end == CopiedName(s, p, removed).end
    decreases |s| - p
  {
    if 0 < s[p] < 0x40 {
      NameEndAlike(s, p + 1 + s[p], removed, other);
    }
  }

  lemma AppendedHolds(o: seq<byte>, out: seq<byte>, head: seq<byte>, next: seq<byte>)
    requires SameBody(o, out) && head + next <= out && 12 <= |head|
    ensures Holds(o, |head|, next)
  {
    var p := |head|;
    assert out[p..p + |next|] == next;
    assert o[p..p + |next|] == o[12..][p - 12..p - 12 + |next|] == out[12..][p - 12..p - 12 + |next|] == out[p..p + |next|];
  }

  lemma SliceOfSlice(s: seq<byte>, p: nat, o: seq<byte>, p2: nat, len: nat)
    requires 4 <= len && p + len <= |s| && p2 + len <= |o| && s[p..p + len] == o[p2..p2 + len]
    ensures s[p + 4..p + len] == o[p2 + 4..p2 + len]
  {
    assert s[p + 4..p + len] == s[p..p + len][4..];
    assert o[p2 + 4..p2 + len] == o[p2..p2 + len][4..];
  }

  lemma SameFixed(s: seq<byte>, q: nat, o: seq<byte>, q2: nat)
    requires q + 8 <= |s| && q2 + 8 <= |o| && o[q2..q2 + 8] == s[q..q + 8]
    ensures U16(o, q2 + 2) == U16(s, q + 2) && U32(o, q2 + 4) == U32(s, q + 4)
  {
    U16OfSlice(s, q, q + 8, 2);
    U16OfSlice(s, q, q + 8, 4);
    U16OfSlice(s, q, q + 8, 6);
    U16OfSlice(o, q2, q2 + 8, 2);
    U16OfSlice(o, q2, q2 + 8, 4);
    U16OfSlice(o, q2, q2 + 8, 6);
  }
}
