/** DropAddress keeps what a response says, but for the hints it is told to drop. */
module Meaning {
  import opened Wrappers
  import opened Bytes
  import opened Parser
  import opened Rewriter
  import opened Relocation
  import opened Pointers
  import opened Copies
  import opened Decoder
  import opened Hints
  import opened Decodable
  import Composition
  import opened RewriteTwice

  // ----- label starts that stay readable

  /** What the decoder reads at x, it reads in out where x went. */
  ghost predicate Readable(s: seq<byte>, out: seq<byte>, removed: Removed, known: set<nat>, x: nat) {
    var y := Moved(removed, x);
    && x < |s| && 12 <= y < |out|
    && if s[x] == 0 then out[y] == 0
       else if s[x] >= 0xC0 then SamePointer(s, out, removed, known, x, y)
       else SameLabel(s, out, removed, known, x, y)
  }

  ghost predicate SamePointer(s: seq<byte>, out: seq<byte>, removed: Removed, known: set<nat>, x: nat, y: nat) {
    && x + 2 <= |s| && y + 2 <= |out| && out[y] >= 0xC0 && PointerAt(s, x) in known
    && PointerAt(out, y) == Moved(removed, PointerAt(s, x))
  }

  ghost predicate SameLabel(s: seq<byte>, out: seq<byte>, removed: Removed, known: set<nat>, x: nat, y: nat)
    requires x < |s|
  {
    var next, next2 := x + 1 + s[x], y + 1 + s[x];
    && s[x] < 0x40 && next in known && next <= |s| && Moved(removed, next) == next2
    && next2 <= |out| && out[y..next2] == s[x..next]
  }

  /** Every known label start before p stays, readable in out. */
  ghost predicate Carried(s: seq<byte>, out: seq<byte>, removed: Removed, known: set<nat>, p: nat) {
    forall x: nat {:trigger Readable(s, out, removed, known, x)} ::
      x in known ==> x < p && Stays(removed, x) && Readable(s, out, removed, known, x)
  }

  /** Equal from the question on, as far as out goes. */
  ghost predicate Extends(o: seq<byte>, out: seq<byte>) {
    |out| <= |o| && forall i :: 12 <= i < |out| ==> o[i] == out[i]
  }

  /** A known name expands in o, from where it went, to the same labels. */
  lemma {:induction false} ExpandsAlike(s: seq<byte>, o: seq<byte>, removed: Removed, known: set<nat>, p: nat, x: nat,
          limit: nat)
    requires Ordered(removed, 0, p) && Carried(s, o, removed, known, p)
    requires x in known && limit in known && Expanded(s, x, limit).Some?
    ensures Moved(removed, x) >= 0 && Moved(removed, limit) >= 0
    ensures Expanded(o, Moved(removed, x), Moved(removed, limit)) == Expanded(s, x, limit)
    decreases limit, |s| - x
  {
    hide PointerAt, Ordered;
    assert Readable(s, o, removed, known, x) && Readable(s, o, removed, known, limit);
    if s[x] >= 0xC0 {
      var t := PointerAt(s, x);
      assert Readable(s, o, removed, known, t);
      MovedInOrder(removed, 0, p, t, limit);
      ExpandsAlike(s, o, removed, known, p, t, t);
    } else if s[x] > 0 {
      ExpandsAlike(s, o, removed, known, p, x + 1 + s[x], limit);
      SameText(s, o, x, Moved(removed, x));
    }
  }

  lemma SameText(s: seq<byte>, o: seq<byte>, x: nat, y: nat)
    requires x < |s| && x + 1 + s[x] <= |s| && y + 1 + s[x] <= |o| && o[y..y + 1 + s[x]] == s[x..x + 1 + s[x]]
    ensures o[y] == s[x] && o[y + 1..y + 1 + s[x]] == s[x + 1..x + 1 + s[x]]
  {
    assert o[y] == o[y..y + 1 + s[x]][0] == s[x..x + 1 + s[x]][0];
    assert o[y + 1..y + 1 + s[x]] == o[y..y + 1 + s[x]][1..] == s[x..x + 1 + s[x]][1..] == s[x + 1..x + 1 + s[x]];
  }

  lemma CarriedFurther(s: seq<byte>, out: seq<byte>, o: seq<byte>, removed: Removed, known: set<nat>, p: nat, p': nat)
    requires Carried(s, out, removed, known, p) && Extends(o, out) && p <= p'
    ensures Carried(s, o, removed, known, p')
  {
    forall x: nat | x in known ensures x < p' && Stays(removed, x) && Readable(s, o, removed, known, x) {
      assert Readable(s, out, removed, known, x);
      ReadableFurther(s, out, o, removed, known, x);
    }
  }

  lemma ReadableFurther(s: seq<byte>, out: seq<byte>, o: seq<byte>, removed: Removed, known: set<nat>, x: nat)
    requires Readable(s, out, removed, known, x) && Extends(o, out)
    ensures Readable(s, o, removed, known, x)
  {
    var y := Moved(removed, x);
    if 0 < s[x] < 0x40 {
      assert o[y..y + 1 + s[x]] == out[y..y + 1 + s[x]];
    }
  }

  /** Deletions behind p leave what was carried before p. */
  lemma CarriedPast(s: seq<byte>, out: seq<byte>, removed: Removed, more: Removed, known: set<nat>, p: nat)
    requires Carried(s, out, removed, known, p) && forall r <- more :: p <= r.0
    ensures Carried(s, out, removed + more, known, p)
  {
    forall x: nat | x in known ensures x < p && Stays(removed + more, x) && Readable(s, out, removed + more, known, x) {
      assert Readable(s, out, removed, known, x);
      MovedUnchanged(removed, more, x);
      if s[x] >= 0xC0 {
        assert Readable(s, out, removed, known, PointerAt(s, x));
        MovedUnchanged(removed, more, PointerAt(s, x));
      } else if s[x] > 0 {
        assert Readable(s, out, removed, known, x + 1 + s[x]);
        MovedUnchanged(removed, more, x + 1 + s[x]);
      }
    }
  }

  /** One more label start. */
  lemma CarriedWith(s: seq<byte>, out: seq<byte>, removed: Removed, known: set<nat>, p: nat, end: nat)
    requires Carried(s, out, removed, known, end) && Ordered(removed, 0, p) && p < end
    requires Readable(s, out, removed, known + {p}, p)
    ensures Carried(s, out, removed, known + {p}, end)
  {
    OrderedStarts(removed, 0, p);
    forall x: nat | x in known + {p} ensures x < end && Stays(removed, x) && Readable(s, out, removed, known + {p}, x) {
      if x != p {
        assert Readable(s, out, removed, known, x);
      }
    }
  }

  /** A name copied to the end of the output is carried, and so are the ones before it. */
  lemma {:induction false} CarriedName(s: seq<byte>, p: nat, out: seq<byte>, removed: Removed, known: set<nat>)
    requires Ordered(removed, 0, p) && |out| == Moved(removed, p) && 12 <= |out|
    requires Carried(s, out, removed, known, p)
    requires CopiedName(s, p, removed).Copied? && PointsInto(s, p, known)
    ensures Carried(s, out + CopiedName(s, p, removed).bytes, removed, known + NameStarts(s, p), CopiedName(s, p, removed).end)
    decreases |s| - p, 1
  {
    var c := CopiedName(s, p, removed);
    if s[p] == 0 || s[p] >= 0xC0 {
      CarriedFurther(s, out, out + c.bytes, removed, known, p, c.end);
      LastStartReadable(s, p, out, removed, known);
      CarriedWith(s, out + c.bytes, removed, known, p, c.end);
    } else {
      CarriedLabel(s, p, out, removed, known);
    }
  }

  lemma LastStartReadable(s: seq<byte>, p: nat, out: seq<byte>, removed: Removed, known: set<nat>)
    requires Ordered(removed, 0, p) && |out| == Moved(removed, p) && 12 <= |out|
    requires Carried(s, out, removed, known, p)
    requires CopiedName(s, p, removed).Copied? && (s[p] == 0 || s[p] >= 0xC0) && PointsInto(s, p, known)
    ensures Readable(s, out + CopiedName(s, p, removed).bytes, removed, known + {p}, p)
  {
    if s[p] >= 0xC0 {
      hide PutPointer, PointerAt;
      var t := PointerAt(s, p);
      assert Readable(s, out, removed, known, t);
      MovedStaysAbove(removed, 0, p, t);
      var o := out + PutPointer(Moved(removed, t));
      assert o[|out|..|out| + 2] == PutPointer(Moved(removed, t));
      PointerRoundTrip(o, |out|, Moved(removed, t));
    }
  }

  lemma CarriedLabel(s: seq<byte>, p: nat, out: seq<byte>, removed: Removed, known: set<nat>)
    requires Ordered(removed, 0, p) && |out| == Moved(removed, p) && 12 <= |out|
    requires Carried(s, out, removed, known, p)
    requires CopiedName(s, p, removed).Copied? && 0 < s[p] < 0x40 && PointsInto(s, p, known)
    ensures Carried(s, out + CopiedName(s, p, removed).bytes, removed, known + NameStarts(s, p), CopiedName(s, p, removed).end)
    decreases |s| - p, 0
  {
    var next := p + 1 + s[p];
    var rest := CopiedName(s, next, removed);
    var mid := out + s[p..next];
    var o := mid + rest.bytes;
    var known' := known + NameStarts(s, next);
    assert rest.Copied? && o == out + CopiedName(s, p, removed).bytes && rest.end == CopiedName(s, p, removed).end;
    assert PointsInto(s, next, known) && known' + {p} == known + NameStarts(s, p);
    hide Carried, DeletedBefore, Total, PointsInto, CopiedName, NameStarts, Ordered, Readable;
    assert Carried(s, o, removed, known', rest.end) && Moved(removed, next) == |mid| by {
      DeletedPastEnd(removed, 0, p, p);
      DeletedPastEnd(removed, 0, p, next);
      OrderedWiden(removed, 0, p, next);
      CarriedFurther(s, out, mid, removed, known, p, next);
      CarriedName(s, next, mid, removed, known);
    }
    assert next in known' by {
      CopyEndsName(s, next, removed);
      StartsInName(s, next);
    }
    LabelReadable(s, p, out, rest.bytes, removed, known');
    CarriedWith(s, o, removed, known', p, rest.end);
  }

  lemma LabelReadable(s: seq<byte>, p: nat, out: seq<byte>, rest: seq<byte>, removed: Removed, known: set<nat>)
    requires p < |s| && 0 < s[p] < 0x40 && p + 1 + s[p] <= |s| && p + 1 + s[p] in known
    requires |out| == Moved(removed, p) && 12 <= |out| && Moved(removed, p + 1 + s[p]) == |out| + 1 + s[p]
    ensures Readable(s, out + s[p..p + 1 + s[p]] + rest, removed, known + {p}, p)
  {
    var o := out + s[p..p + 1 + s[p]] + rest;
    assert o[|out|..|out| + 1 + s[p]] == s[p..p + 1 + s[p]];
  }

  // ----- before anything is removed, the output is the input

  lemma PointerParts(high: byte, low: byte)
    requires high >= 0xC0
    ensures (high as int * 256 + low) % POINTER_RANGE == (high - 0xC0) as int * 256 + low
    ensures PutPointer((high - 0xC0) as int * 256 + low) == [high, low]
  {
    var t: nat := (high - 0xC0) as int * 256 + low;
    Wrapped(t);
    assert t % POINTER_RANGE == t && t / 0x100 == high as int - 0xC0 && t % 0x100 == low as int;
  }

  lemma PointerAsIs(s: seq<byte>, p: nat)
    requires p + 2 <= |s| && s[p] >= 0xC0
    ensures PutPointer(PointerAt(s, p)) == s[p..p + 2]
  {
    hide PutPointer;
    PointerParts(s[p], s[p + 1]);
  }

  lemma {:induction false} NameCopiedAsIs(s: seq<byte>, p: nat)
    requires CopiedName(s, p, []).Copied?
    ensures CopiedName(s, p, []).bytes == s[p..CopiedName(s, p, []).end]
    decreases |s| - p
  {
    hide PutPointer, PointerAt;
    if s[p] >= 0xC0 {
      PointerAsIs(s, p);
    } else if s[p] > 0 {
      var next := p + 1 + s[p];
      NameCopiedAsIs(s, next);
      assert s[p..next] + s[next..CopiedName(s, next, []).end] == s[p..CopiedName(s, next, []).end];
    }
  }

  lemma {:induction false} ParamsCopiedAsIs(s: seq<byte>, p: nat, end: nat, drop: Families)
    requires p <= end <= |s| && KeptParams(s, p, end, drop).Kept? && KeptParams(s, p, end, drop).removed == []
    ensures KeptParams(s, p, end, drop).bytes == s[p..end]
    decreases end - p
  {
    if p < end {
      var next := p + ParamLength(s, p, end);
      ParamsCopiedAsIs(s, next, end, drop);
      assert s[p..next] + s[next..end] == s[p..end];
    }
  }

  lemma RdataCopiedAsIs(s: seq<byte>, q: nat, end: nat, qtype: uint16, drop: Families)
    requires q + 10 <= end <= |s|
    requires KeptRdata(s, q, end, qtype, drop, []).Kept? && KeptRdata(s, q, end, qtype, drop, []).removed == []
    ensures KeptRdata(s, q, end, qtype, drop, []).bytes == s[q + 10..end]
  {
    hide CopiedName, KeptParams, U16;
    if U16(s, q) == qtype {
      var r := CopiedName(s, q + 12, []).end;
      NameCopiedAsIs(s, q + 12);
      ParamsCopiedAsIs(s, r, end, drop);
      assert s[q + 10..q + 12] + s[q + 12..r] + s[r..end] == s[q + 10..end];
    }
  }

  lemma AnswerCopiedAsIs(s: seq<byte>, p: nat, qtype: uint16, drop: Families)
    requires CopiedAnswer(s, p, qtype, drop, []).Answer? && CopiedAnswer(s, p, qtype, drop, []).removed == []
    ensures CopiedAnswer(s, p, qtype, drop, []).bytes == s[p..CopiedAnswer(s, p, qtype, drop, []).end]
  {
    var q := CopiedName(s, p, []).end;
    var end := CopiedAnswer(s, p, qtype, drop, []).end;
    var k := KeptRdata(s, q, end, qtype, drop, []);
    AnswerFields(s, p, qtype, drop, [], q, k);
    assert CopiedName(s, p, []).bytes == s[p..q] by {
      NameCopiedAsIs(s, p);
    }
    assert k.bytes == s[q + 10..end] by {
      RdataCopiedAsIs(s, q, end, qtype, drop);
    }
    PutU16RoundTrip(s, q + 8);
    SlicesJoin(s, p, q, end);
  }

  lemma SlicesJoin(s: seq<byte>, p: nat, q: nat, end: nat)
    requires p <= q && q + 10 <= end <= |s|
    ensures s[p..q] + s[q..q + 8] + s[q + 8..q + 10] + s[q + 10..end] == s[p..end]
  {
  }

  /** Anything that reads as a name in bytes copied as they are is carried. */
  lemma CarriedInside(s: seq<byte>, lo: nat, hi: nat, known: set<nat>)
    requires 12 <= lo <= hi <= |s| && Carried(s, s[..lo], [], known, lo)
    ensures Carried(s, s[..hi], [], known + NamesInside(s, lo, hi, known), hi)
  {
    var known' := known + NamesInside(s, lo, hi, known);
    forall x: nat | x in known' ensures x < hi && Stays([], x) && Readable(s, s[..hi], [], known', x) {
      if x in known {
        assert Readable(s, s[..lo], [], known, x);
        ReadableFurther(s, s[..lo], s[..hi], [], known, x);
      }
    }
  }

  // ----- one record

  /** The pass at a record: nothing read so far has lost its meaning. */
  ghost predicate Faithful(s: seq<byte>, st: Pass, known: set<nat>) {
    && InStep(st) && st.p <= |s|
    && (st.removed == [] ==> st.out == s[..st.p])
    && Carried(s, st.out, st.removed, known, st.p)
  }

  /** The output up to the RDATA of the record at st.p, whose fixed fields start at q. */
  ghost function UpToRdata(s: seq<byte>, st: Pass, q: nat, len: uint16): seq<byte>
    requires q + 10 <= |s| && CopiedName(s, st.p, st.removed).Copied?
  {
    st.out + CopiedName(s, st.p, st.removed).bytes + s[q..q + 8] + PutU16(len)
  }

  lemma UpToRdataJoins(s: seq<byte>, qtype: uint16, drop: Families, st: Pass, a: Answer, q: nat, k: Kept)
    requires a == CopiedAnswer(s, st.p, qtype, drop, st.removed) && a.Answer?
    requires q == CopiedName(s, st.p, st.removed).end && q + 10 <= a.end
    requires k == KeptRdata(s, q, a.end, qtype, drop, st.removed)
    ensures k.Kept? && |k.bytes| < 0x1_0000 && a.removed == k.removed
    ensures UpToRdata(s, st, q, |k.bytes|) + k.bytes == st.out + a.bytes
    ensures U16(s, q) == qtype ==> k == KeptSvcb(s, q + 10, a.end, drop, st.removed)
  {
    hide CopiedName, CopiedAnswer, KeptSvcb;
    AnswerFields(s, st.p, qtype, drop, st.removed, q, k);
  }

  lemma OwnerCarried(s: seq<byte>, st: Pass, known: set<nat>, q: nat, len: uint16)
    requires Faithful(s, st, known) && PointsInto(s, st.p, known)
    requires CopiedName(s, st.p, st.removed).Copied? && q == CopiedName(s, st.p, st.removed).end && q + 10 <= |s|
    ensures var out := UpToRdata(s, st, q, len);
            && Carried(s, out, st.removed, known + NameStarts(s, st.p), q + 10)
            && |out| == Moved(st.removed, q + 10) && Ordered(st.removed, 0, q + 10) && 12 <= |out|
  {
    var named := st.out + CopiedName(s, st.p, st.removed).bytes;
    CarriedName(s, st.p, st.out, st.removed, known);
    CarriedFurther(s, named, UpToRdata(s, st, q, len), st.removed, known + NameStarts(s, st.p), q, q + 10);
    DeletedPastEnd(st.removed, 0, st.p, st.p);
    DeletedPastEnd(st.removed, 0, st.p, q + 10);
    OrderedWiden(st.removed, 0, st.p, q + 10);
  }

  /** The TargetName of a record of the queried type, and its SvcParams behind it. */
  lemma TargetCarried(s: seq<byte>, p: nat, end: nat, drop: Families, out: seq<byte>, removed: Removed, known: set<nat>)
    requires p <= end <= |s| && KeptSvcb(s, p, end, drop, removed).Kept?
    requires Ordered(removed, 0, p) && |out| == Moved(removed, p) && 12 <= |out|
    requires Carried(s, out, removed, known, p) && PointsInto(s, p + 2, known)
    ensures var k := KeptSvcb(s, p, end, drop, removed);
            Carried(s, out + k.bytes, removed + k.removed, known + NameStarts(s, p + 2), end)
  {
    hide CopiedName, KeptParams, NameStarts, PointsInto, Carried, DeletedBefore, Total;
    var k := KeptSvcb(s, p, end, drop, removed);
    var target := CopiedName(s, p + 2, removed);
    var before := out + s[p..p + 2];
    var known' := known + NameStarts(s, p + 2);
    assert Carried(s, before + target.bytes, removed, known', target.end) by {
      CarriedFurther(s, out, before, removed, known, p, p + 2);
      DeletedPastEnd(removed, 0, p, p);
      DeletedPastEnd(removed, 0, p, p + 2);
      OrderedWiden(removed, 0, p, p + 2);
      CarriedName(s, p + 2, before, removed, known);
    }
    assert forall r <- k.removed :: target.end <= r.0 by {
      KeptParamsLengths(s, target.end, end, drop);
      OrderedStarts(k.removed, target.end, end);
    }
    CarriedFurther(s, before + target.bytes, out + k.bytes, removed, known', target.end, target.end);
    CarriedPast(s, out + k.bytes, removed, k.removed, known', target.end);
    CarriedFurther(s, out + k.bytes, out + k.bytes, removed + k.removed, known', target.end, end);
  }

  lemma {:induction false} RecordCarried(s: seq<byte>, qtype: uint16, drop: Families, st: Pass, known: set<nat>, q: nat)
    requires Faithful(s, st, known) && CopiedAnswer(s, st.p, qtype, drop, st.removed).Answer?
    requires q == CopiedName(s, st.p, st.removed).end
    requires RecordPointsBack(s, st.p, q, CopiedAnswer(s, st.p, qtype, drop, st.removed).end, qtype, known)
    ensures var a := CopiedAnswer(s, st.p, qtype, drop, st.removed);
            Faithful(s, Advance(st, a), KnownAfter(s, st.p, q, a.end, qtype, known))
  {
    hide Carried, CopiedAnswer, CopiedName, PointsInto, InStep, NameStarts;
    AnswerParts(s, st.p, qtype, drop, st.removed);
    var a := CopiedAnswer(s, st.p, qtype, drop, st.removed);
    var st' := Advance(st, a);
    AdvanceInStep(s, qtype, drop, st);
    if st'.removed == [] {
      assert st.removed == [] && a.removed == [];
      AnswerCopiedAsIs(s, st.p, qtype, drop);
      assert st'.out == s[..a.end];
    }
    assert Carried(s, st'.out, st'.removed, KnownAfter(s, st.p, q, a.end, qtype, known), a.end) by {
      if U16(s, q) == qtype {
        ServiceCarried(s, qtype, drop, st, known, q);
      } else {
        OtherCarried(s, qtype, drop, st, known, q);
      }
    }
  }

  lemma ServiceCarried(s: seq<byte>, qtype: uint16, drop: Families, st: Pass, known: set<nat>, q: nat)
    requires Faithful(s, st, known) && CopiedAnswer(s, st.p, qtype, drop, st.removed).Answer?
    requires q == CopiedName(s, st.p, st.removed).end && U16(s, q) == qtype
    requires PointsInto(s, st.p, known) && PointsInto(s, q + 12, known + NameStarts(s, st.p))
    ensures var a := CopiedAnswer(s, st.p, qtype, drop, st.removed);
            Carried(s, st.out + a.bytes, st.removed + a.removed, known + NameStarts(s, st.p) + NameStarts(s, q + 12), a.end)
  {
    var a := CopiedAnswer(s, st.p, qtype, drop, st.removed);
    var k := KeptRdata(s, q, a.end, qtype, drop, st.removed);
    UpToRdataJoins(s, qtype, drop, st, a, q, k);
    OwnerCarried(s, st, known, q, |k.bytes|);
    TargetCarried(s, q + 10, a.end, drop, UpToRdata(s, st, q, |k.bytes|), st.removed, known + NameStarts(s, st.p));
  }

  lemma OtherCarried(s: seq<byte>, qtype: uint16, drop: Families, st: Pass, known: set<nat>, q: nat)
    requires Faithful(s, st, known) && CopiedAnswer(s, st.p, qtype, drop, st.removed).Answer?
    requires q == CopiedName(s, st.p, st.removed).end && U16(s, q) != qtype && PointsInto(s, st.p, known)
    ensures var a := CopiedAnswer(s, st.p, qtype, drop, st.removed);
            var known1 := known + NameStarts(s, st.p);
            && a.removed == st.removed == [] && st.out + a.bytes == s[..a.end]
            && Carried(s, s[..a.end], [], known1 + NamesInside(s, q + 10, a.end, known1), a.end)
  {
    var a := CopiedAnswer(s, st.p, qtype, drop, st.removed);
    AnswerCopiedAsIs(s, st.p, qtype, drop);
    assert st.out + a.bytes == s[..a.end];
    OwnerAsIs(s, st, known, q);
    CarriedInside(s, q + 10, a.end, known + NameStarts(s, st.p));
  }

  lemma OwnerAsIs(s: seq<byte>, st: Pass, known: set<nat>, q: nat)
    requires Faithful(s, st, known) && st.removed == [] && PointsInto(s, st.p, known)
    requires CopiedName(s, st.p, []).Copied? && q == CopiedName(s, st.p, []).end && q + 10 <= |s|
    ensures Carried(s, s[..q + 10], [], known + NameStarts(s, st.p), q + 10)
  {
    OwnerCarried(s, st, known, q, U16(s, q + 8));
    assert UpToRdata(s, st, q, U16(s, q + 8)) == s[..q + 10] by {
      NameCopiedAsIs(s, st.p);
      PutU16RoundTrip(s, q + 8);
      PrefixJoins(s, st.p, q);
    }
  }

  lemma PrefixJoins(s: seq<byte>, p: nat, q: nat)
    requires p <= q && q + 10 <= |s|
    ensures s[..p] + s[p..q] + s[q..q + 8] + s[q + 8..q + 10] == s[..q + 10]
  {
  }

  // ----- reading a record back

  lemma {:induction false} HeldNameEnd(s: seq<byte>, p: nat, removed: Removed, o: seq<byte>, p2: nat)
    requires CopiedName(s, p, removed).Copied? && Holds(o, p2, CopiedName(s, p, removed).bytes)
    ensures NameEnd(o, p2) == Some(p2 + |CopiedName(s, p, removed).bytes|)
    decreases |s| - p
  {
    hide Holds, PutPointer, PointerAt, CopiedName;
    NameHolds(s, p, removed, o, p2);
    if 0 < s[p] < 0x40 {
      HeldNameEnd(s, p + 1 + s[p], removed, o, p2 + 1 + s[p]);
    }
  }

  lemma ExtendsHolds(o: seq<byte>, out: seq<byte>, head: seq<byte>, next: seq<byte>)
    requires Extends(o, out) && out == head + next && 12 <= |head|
    ensures Holds(o, |head|, next)
  {
    assert forall i :: 0 <= i < |next| ==> o[|head| + i] == out[|head| + i] == next[i];
  }

  /** The parameters read back are those not dropped. */
  lemma {:induction false} ParamsRead(s: seq<byte>, p: nat, end: nat, o: seq<byte>, p2: nat, end2: nat, drop: Families)
    requires p <= end <= |s| && p2 <= end2 <= |o| && Aligned(s, p, end, o, p2, end2, drop)
    ensures Params(s, p, end).Some? && Params(o, p2, end2) == Some(WithoutParams(Params(s, p, end).value, drop))
    decreases end - p
  {
    hide U16;
    if p < end {
      var len := ParamLength(s, p, end);
      ParamsRead(s, p + len, end, o, if Drops(drop, U16(s, p)) then p2 else p2 + len, end2, drop);
      ParamsHead(s, p, end, len);
      WithoutHead(Param(U16(s, p), s[p + 4..p + len]), Params(s, p + len, end).value, drop);
      if !Drops(drop, U16(s, p)) {
        ParamsHead(o, p2, end2, len);
        SliceOfSlice(s, p, o, p2, len);
      }
    }
  }

  lemma ParamsHead(s: seq<byte>, p: nat, end: nat, len: nat)
    requires p < end <= |s| && len == ParamLength(s, p, end) > 0 && Params(s, p + len, end).Some?
    ensures Params(s, p, end) == Some([Param(U16(s, p), s[p + 4..p + len])] + Params(s, p + len, end).value)
  {
  }

  lemma WithoutHead(first: Param, rest: seq<Param>, drop: Families)
    ensures WithoutParams([first] + rest, drop)
         == if Drops(drop, first.key) then WithoutParams(rest, drop) else [first] + WithoutParams(rest, drop)
  {
    assert ([first] + rest)[1..] == rest;
  }

  /** A name copied to the end of out reads, in whatever extends it, as it did. */
  lemma NameReads(s: seq<byte>, p: nat, o: seq<byte>, out: seq<byte>, removed: Removed, known: set<nat>)
    requires Ordered(removed, 0, p) && |out| == Moved(removed, p) && 12 <= |out|
    requires Carried(s, out, removed, known, p) && PointsInto(s, p, known)
    requires CopiedName(s, p, removed).Copied? && Extends(o, out + CopiedName(s, p, removed).bytes)
    ensures Name(s, p).Some? ==> Name(o, |out|) == Name(s, p)
    ensures NameEnd(o, |out|) == Some(|out| + |CopiedName(s, p, removed).bytes|)
  {
    var c := CopiedName(s, p, removed);
    var known' := known + NameStarts(s, p);
    assert NameEnd(o, |out|) == Some(|out| + |c.bytes|) by {
      ExtendsHolds(o, out + c.bytes, out, c.bytes);
      HeldNameEnd(s, p, removed, o, |out|);
    }
    assert Carried(s, o, removed, known', c.end) by {
      CarriedName(s, p, out, removed, known);
      CarriedFurther(s, out + c.bytes, o, removed, known', c.end, c.end);
    }
    CopyEndsName(s, p, removed);
    StartsInName(s, p);
    OrderedWiden(removed, 0, p, c.end);
    if Name(s, p).Some? {
      ExpandsAlike(s, o, removed, known', c.end, p, p);
    }
  }

  lemma ServiceRead(s: seq<byte>, p: nat, end: nat, o: seq<byte>, p2: nat, end2: nat, drop: Families, out: seq<byte>,
                    removed: Removed, known: set<nat>, k: Kept)
    requires p <= end <= |s| && k == KeptSvcb(s, p, end, drop, removed) && k.Kept?
    requires Ordered(removed, 0, p) && p2 == |out| == Moved(removed, p) && 12 <= |out|
    requires Carried(s, out, removed, known, p) && PointsInto(s, p + 2, known)
    requires Extends(o, out + k.bytes) && end2 == p2 + |k.bytes| && ServiceRdata(s, p, end).Some?
    ensures ServiceRdata(o, p2, end2) == Some(Stripped(ServiceRdata(s, p, end).value, drop))
  {
    var target := CopiedName(s, p + 2, removed);
    assert p + 2 <= end && target.Copied? && target.end <= end;
    var q, q2 := target.end, p2 + target.end - p;
    hide Params, ServiceRdata, Stripped, Carried, DeletedBefore, Extends, KeptSvcb, NameEnd, Name;
    ParamsReadBack(s, p, end, o, p2, end2, drop, out, removed, q, q2);
    TargetReadsBack(s, p, end, o, p2, drop, out, removed, known, k, q2);
    ServiceJoins(s, p, end, q, o, p2, end2, q2, drop);
  }

  lemma TargetReadsBack(s: seq<byte>, p: nat, end: nat, o: seq<byte>, p2: nat, drop: Families, out: seq<byte>,
                        removed: Removed, known: set<nat>, k: Kept, q2: nat)
    requires p <= end <= |s| && k == KeptSvcb(s, p, end, drop, removed) && k.Kept?
    requires Ordered(removed, 0, p) && p2 == |out| == Moved(removed, p) && 12 <= |out|
    requires Carried(s, out, removed, known, p) && PointsInto(s, p + 2, known)
    requires Extends(o, out + k.bytes) && ServiceRdata(s, p, end).Some? && q2 == p2 + CopiedName(s, p + 2, removed).end - p
    ensures NameEnd(s, p + 2) == Some(CopiedName(s, p + 2, removed).end) && NameEnd(o, p2 + 2) == Some(q2)
    ensures Name(o, p2 + 2) == Name(s, p + 2)
  {
    hide CopiedName, KeptParams, Name, NameEnd, Params, Carried, DeletedBefore, Extends;
    var target := CopiedName(s, p + 2, removed);
    CopyEndsName(s, p + 2, removed);
    PartsExtend(o, out, s[p..p + 2], target.bytes, KeptParams(s, target.end, end, drop).bytes);
    TargetReads(s, p, o, p2, out, removed, known, target, q2);
  }

  lemma ParamsReadBack(s: seq<byte>, p: nat, end: nat, o: seq<byte>, p2: nat, end2: nat, drop: Families, out: seq<byte>,
                       removed: Removed, q: nat, q2: nat)
    requires p <= end <= |s| && KeptSvcb(s, p, end, drop, removed).Kept? && p2 == |out| && 12 <= |out|
    requires q == CopiedName(s, p + 2, removed).end && q2 == p2 + q - p
    requires Extends(o, out + KeptSvcb(s, p, end, drop, removed).bytes)
    requires end2 == p2 + |KeptSvcb(s, p, end, drop, removed).bytes|
    ensures q2 <= end2 <= |o| && s[p..p + 2] == o[p2..p2 + 2]
    ensures Params(s, q, end).Some? && Params(o, q2, end2) == Some(WithoutParams(Params(s, q, end).value, drop))
  {
    var k := KeptSvcb(s, p, end, drop, removed);
    ExtendsHolds(o, out + k.bytes, out, k.bytes);
    SvcbHolds(s, p, end, o, p2, drop, removed, q, q2);
    assert Aligned(s, q, end, o, q2, end2, drop) by {
      HoldsAligned(s, q, end, o, q2, end2, drop);
    }
    ParamsRead(s, q, end, o, q2, end2, drop);
  }

  lemma PartsExtend(o: seq<byte>, out: seq<byte>, a: seq<byte>, b: seq<byte>, c: seq<byte>)
    requires Extends(o, out + (a + b + c))
    ensures Extends(o, out + a + b)
  {
    assert out + (a + b + c) == out + a + b + c;
  }

  lemma ServiceJoins(s: seq<byte>, p: nat, end: nat, q: nat, o: seq<byte>, p2: nat, end2: nat, q2: nat, drop: Families)
    requires p + 2 <= q <= end <= |s| && p2 + 2 <= q2 <= end2 <= |o| && s[p..p + 2] == o[p2..p2 + 2]
    requires NameEnd(s, p + 2) == Some(q) && NameEnd(o, p2 + 2) == Some(q2) && Name(o, p2 + 2) == Name(s, p + 2)
    requires Params(s, q, end).Some? && Params(o, q2, end2) == Some(WithoutParams(Params(s, q, end).value, drop))
    requires ServiceRdata(s, p, end).Some?
    ensures ServiceRdata(o, p2, end2) == Some(Stripped(ServiceRdata(s, p, end).value, drop))
  {
    hide NameEnd, Name, Params, WithoutParams;
    U16OfSlice(o, p2, p2 + 2, 0);
    U16OfSlice(s, p, p + 2, 0);
  }

  lemma TargetReads(s: seq<byte>, p: nat, o: seq<byte>, p2: nat, out: seq<byte>, removed: Removed, known: set<nat>,
                    target: Copied, q2: nat)
    requires p + 2 <= |s| && target == CopiedName(s, p + 2, removed) && target.Copied? && q2 == p2 + target.end - p
    requires Ordered(removed, 0, p) && p2 == |out| == Moved(removed, p) && 12 <= |out|
    requires Carried(s, out, removed, known, p) && PointsInto(s, p + 2, known)
    requires Extends(o, out + s[p..p + 2] + target.bytes) && Name(s, p + 2).Some?
    ensures Name(o, p2 + 2) == Name(s, p + 2) && NameEnd(o, p2 + 2) == Some(q2)
  {
    var before := out + s[p..p + 2];
    DeletedPastEnd(removed, 0, p, p);
    DeletedPastEnd(removed, 0, p, p + 2);
    OrderedWiden(removed, 0, p, p + 2);
    CarriedFurther(s, out, before, removed, known, p, p + 2);
    NameReads(s, p + 2, o, before, removed, known);
  }

  /** An alias or opaque RDATA, copied as it was. */
  lemma OtherRead(s: seq<byte>, o: seq<byte>, rtype: uint16, lo: nat, hi: nat, qtype: uint16, known: set<nat>)
    requires 12 <= lo <= hi <= |s| && rtype != qtype && Extends(o, s[..hi])
    requires Carried(s, s[..lo], [], known, lo) && (rtype == TYPE_CNAME ==> PointsInto(s, lo, known))
    requires RdataAt(s, rtype, lo, hi, qtype).Some?
    ensures RdataAt(o, rtype, lo, hi, qtype) == RdataAt(s, rtype, lo, hi, qtype)
  {
    if rtype == TYPE_CNAME {
      EndedNameCopies(s, lo, []);
      NameCopiedAsIs(s, lo);
      assert s[..lo] + s[lo..hi] == s[..hi];
      NameReads(s, lo, o, s[..lo], [], known);
    } else {
      assert o[lo..hi] == s[..hi][lo..hi] == s[lo..hi];
    }
  }

  /** Every record kept reads as it did, less the dropped hints. */
  lemma RecordReads(s: seq<byte>, o: seq<byte>, qtype: uint16, drop: Families, st: Pass, known: set<nat>, a: Answer,
                    q: nat, p2: nat, q2: nat, end2: nat, k: Kept)
    requires Faithful(s, st, known) && a == CopiedAnswer(s, st.p, qtype, drop, st.removed) && a.Answer?
    requires q == CopiedName(s, st.p, st.removed).end && q + 10 <= a.end
    requires k == KeptRdata(s, q, a.end, qtype, drop, st.removed)
    requires p2 == |st.out| && q2 == |st.out| + q - st.p && end2 == |st.out| + |a.bytes|
    requires RecordPointsBack(s, st.p, q, a.end, qtype, known)
    requires Extends(o, st.out + a.bytes)
    ensures RecordEnd(o, p2) == Some((q2, end2))
    ensures RecordMatches(s, st.p, q, a.end, o, p2, q2, end2, qtype, drop)
  {
    FieldsRead(s, o, qtype, drop, st, a, q, q2, k);
    ContentReads(s, o, qtype, drop, st, known, a, q, p2, q2, end2, k);
    RecordJoins(s, st.p, q, a.end, o, p2, q2, end2, qtype, drop);
  }

  lemma ContentReads(s: seq<byte>, o: seq<byte>, qtype: uint16, drop: Families, st: Pass, known: set<nat>, a: Answer,
                     q: nat, p2: nat, q2: nat, end2: nat, k: Kept)
    requires Faithful(s, st, known) && a == CopiedAnswer(s, st.p, qtype, drop, st.removed) && a.Answer?
    requires q == CopiedName(s, st.p, st.removed).end && q + 10 <= a.end
    requires k == KeptRdata(s, q, a.end, qtype, drop, st.removed) && k.Kept?
    requires p2 == |st.out| && q2 == |st.out| + q - st.p && end2 == q2 + 10 + |k.bytes| == |st.out| + |a.bytes|
    requires RecordPointsBack(s, st.p, q, a.end, qtype, known)
    requires Extends(o, st.out + a.bytes)
    ensures NameEnd(o, p2) == Some(q2)
    ensures RecordAt(s, st.p, q, a.end, qtype).Some? ==>
              && Name(o, p2) == Name(s, st.p)
              && RdataAt(o, U16(s, q), q2 + 10, end2, qtype)
              == Some(Stripped(RdataAt(s, U16(s, q), q + 10, a.end, qtype).value, drop))
  {
    hide CopiedAnswer, CopiedName, KeptRdata, Name, NameEnd, Stripped, RdataAt, Extends;
    OwnerReads(s, o, qtype, drop, st, known, a, q, q2, k);
    if RecordAt(s, st.p, q, a.end, qtype).Some? {
      RdataReads(s, o, qtype, drop, st, known, a, q, q2, end2, k);
    }
  }

  lemma RecordJoins(s: seq<byte>, p: nat, q: nat, end: nat, o: seq<byte>, p2: nat, q2: nat, end2: nat, qtype: uint16,
          drop: Families)
    requires q + 10 <= end <= |s| && q2 + 10 <= end2 <= |o|
    requires U16(o, q2) == U16(s, q) && U16(o, q2 + 2) == U16(s, q + 2) && U32(o, q2 + 4) == U32(s, q + 4)
    requires NameEnd(o, p2) == Some(q2) && end2 == q2 + 10 + U16(o, q2 + 8)
    requires RecordAt(s, p, q, end, qtype).Some? ==>
               && Name(o, p2) == Name(s, p)
               && RdataAt(o, U16(s, q), q2 + 10, end2, qtype)
               == Some(Stripped(RdataAt(s, U16(s, q), q + 10, end, qtype).value, drop))
    ensures RecordEnd(o, p2) == Some((q2, end2))
    ensures RecordMatches(s, p, q, end, o, p2, q2, end2, qtype, drop)
  {
    hide NameEnd, Name, RdataAt, Stripped;
  }

  lemma FieldsRead(s: seq<byte>, o: seq<byte>, qtype: uint16, drop: Families, st: Pass, a: Answer, q: nat, q2: nat,
          k: Kept)
    requires InStep(st) && a == CopiedAnswer(s, st.p, qtype, drop, st.removed) && a.Answer?
    requires q == CopiedName(s, st.p, st.removed).end && q2 == |st.out| + q - st.p && q + 10 <= a.end
    requires k == KeptRdata(s, q, a.end, qtype, drop, st.removed)
    requires Extends(o, st.out + a.bytes)
    ensures k.Kept? && a.end == q + 10 + U16(s, q + 8) && a.removed == k.removed
    ensures q2 + 10 + |k.bytes| == |st.out| + |a.bytes| <= |o| && U16(o, q2 + 8) == |k.bytes|
    ensures U16(o, q2) == U16(s, q) && U16(o, q2 + 2) == U16(s, q + 2) && U32(o, q2 + 4) == U32(s, q + 4)
  {
    ExtendsHolds(o, st.out + a.bytes, st.out, a.bytes);
    AnswerHolds(s, st.p, o, |st.out|, qtype, drop, st.removed, q, q2, k);
    SameFixed(s, q, o, q2);
  }

  lemma OwnerExtends(o: seq<byte>, out: seq<byte>, a: seq<byte>, b: seq<byte>, c: seq<byte>, d: seq<byte>)
    requires Extends(o, out + (a + b + c + d))
    ensures Extends(o, out + a)
  {
    assert out + (a + b + c + d) == out + a + (b + c + d);
  }

  lemma OwnerReads(s: seq<byte>, o: seq<byte>, qtype: uint16, drop: Families, st: Pass, known: set<nat>, a: Answer,
          q: nat, q2: nat, k: Kept)
    requires Faithful(s, st, known) && a == CopiedAnswer(s, st.p, qtype, drop, st.removed) && a.Answer?
    requires q == CopiedName(s, st.p, st.removed).end && q2 == |st.out| + q - st.p && q + 10 <= a.end
    requires k == KeptRdata(s, q, a.end, qtype, drop, st.removed)
    requires PointsInto(s, st.p, known) && Extends(o, st.out + a.bytes)
    ensures NameEnd(o, |st.out|) == Some(q2) && (Name(s, st.p).Some? ==> Name(o, |st.out|) == Name(s, st.p))
  {
    hide CopiedName, CopiedAnswer, KeptRdata, Name, NameEnd;
    AnswerParts(s, st.p, qtype, drop, st.removed);
    var owner := CopiedName(s, st.p, st.removed).bytes;
    AnswerFields(s, st.p, qtype, drop, st.removed, q, k);
    OwnerExtends(o, st.out, owner, s[q..q + 8], PutU16(|k.bytes|), k.bytes);
    NameReads(s, st.p, o, st.out, st.removed, known);
  }

  lemma RdataReads(s: seq<byte>, o: seq<byte>, qtype: uint16, drop: Families, st: Pass, known: set<nat>, a: Answer,
                   q: nat, q2: nat, end2: nat, k: Kept)
    requires Faithful(s, st, known) && a == CopiedAnswer(s, st.p, qtype, drop, st.removed) && a.Answer?
    requires q == CopiedName(s, st.p, st.removed).end && q2 == |st.out| + q - st.p && q + 10 <= a.end
    requires k == KeptRdata(s, q, a.end, qtype, drop, st.removed) && k.Kept?
    requires end2 == q2 + 10 + |k.bytes| == |st.out| + |a.bytes|
    requires RecordPointsBack(s, st.p, q, a.end, qtype, known)
    requires Extends(o, st.out + a.bytes) && RdataAt(s, U16(s, q), q + 10, a.end, qtype).Some?
    ensures RdataAt(o, U16(s, q), q2 + 10, end2, qtype) == Some(Stripped(RdataAt(s, U16(s, q), q + 10, a.end, qtype).value, drop))
  {
    if U16(s, q) == qtype {
      ServiceReads(s, o, qtype, drop, st, known, a, q, q2, end2, k);
    } else {
      OtherReads(s, o, qtype, drop, st, known, a, q, q2, end2);
    }
  }

  lemma ServiceReads(s: seq<byte>, o: seq<byte>, qtype: uint16, drop: Families, st: Pass, known: set<nat>, a: Answer,
                     q: nat, q2: nat, end2: nat, k: Kept)
    requires Faithful(s, st, known) && a == CopiedAnswer(s, st.p, qtype, drop, st.removed) && a.Answer?
    requires q == CopiedName(s, st.p, st.removed).end && q2 == |st.out| + q - st.p && q + 10 <= a.end
    requires U16(s, q) == qtype
    requires k == KeptRdata(s, q, a.end, qtype, drop, st.removed) && k.Kept?
    requires end2 == q2 + 10 + |k.bytes| == |st.out| + |a.bytes|
    requires PointsInto(s, st.p, known) && PointsInto(s, q + 12, known + NameStarts(s, st.p))
    requires Extends(o, st.out + a.bytes) && ServiceRdata(s, q + 10, a.end).Some?
    ensures ServiceRdata(o, q2 + 10, end2) == Some(Stripped(ServiceRdata(s, q + 10, a.end).value, drop))
  {
    hide ServiceRdata, Stripped, Carried, PointsInto, NameStarts, Extends;
    UpToRdataJoins(s, qtype, drop, st, a, q, k);
    var out := UpToRdata(s, st, q, |k.bytes|);
    OwnerCarried(s, st, known, q, |k.bytes|);
    ServiceRead(s, q + 10, a.end, o, q2 + 10, end2, drop, out, st.removed, known + NameStarts(s, st.p), k);
  }

  lemma OtherReads(s: seq<byte>, o: seq<byte>, qtype: uint16, drop: Families, st: Pass, known: set<nat>, a: Answer,
                   q: nat, q2: nat, end2: nat)
    requires Faithful(s, st, known) && a == CopiedAnswer(s, st.p, qtype, drop, st.removed) && a.Answer?
    requires q == CopiedName(s, st.p, st.removed).end && q2 == |st.out| + q - st.p && q + 10 <= a.end
    requires U16(s, q) != qtype
    requires end2 == |st.out| + |a.bytes|
    requires PointsInto(s, st.p, known) && (U16(s, q) == TYPE_CNAME ==> PointsInto(s, q + 10, known + NameStarts(s, st.p)))
    requires Extends(o, st.out + a.bytes) && RdataAt(s, U16(s, q), q + 10, a.end, qtype).Some?
    ensures RdataAt(o, U16(s, q), q2 + 10, end2, qtype) == RdataAt(s, U16(s, q), q + 10, a.end, qtype)
  {
    OtherCarried(s, qtype, drop, st, known, q);
    assert q2 == q && end2 == a.end;
    OwnerAsIs(s, st, known, q);
    OtherRead(s, o, U16(s, q), q + 10, a.end, qtype, known + NameStarts(s, st.p));
  }

  // ----- the whole message

  /** m records of s from p on, and of o from p2 on, that differ by the dropped hints. */
  ghost predicate RecordsMatch(s: seq<byte>, p: nat, o: seq<byte>, p2: nat, m: nat, qtype: uint16, drop: Families)
    decreases m
  {
    match (m, RecordEnd(s, p), RecordEnd(o, p2))
    case (0, _, _) => true
    case (_, Some((q, end)), Some((q2, end2))) =>
      RecordMatches(s, p, q, end, o, p2, q2, end2, qtype, drop) && RecordsMatch(s, end, o, end2, m - 1, qtype, drop)
    case _ => false
  }

  ghost predicate RecordMatches(s: seq<byte>, p: nat, q: nat, end: nat, o: seq<byte>, p2: nat, q2: nat, end2: nat,
          qtype: uint16, drop: Families)
    requires q + 10 <= end <= |s| && q2 + 10 <= end2 <= |o|
  {
    var r := RecordAt(s, p, q, end, qtype);
    r.Some? ==> RecordAt(o, p2, q2, end2, qtype) == Some(Without(r.value, drop))
  }

  lemma OneMoreMatches(s: seq<byte>, p: nat, q: nat, end: nat, o: seq<byte>, p2: nat, q2: nat, end2: nat, m: nat,
          qtype: uint16, drop: Families)
    requires m > 0 && RecordEnd(s, p) == Some((q, end)) && RecordEnd(o, p2) == Some((q2, end2))
    requires RecordMatches(s, p, q, end, o, p2, q2, end2, qtype, drop)
    requires RecordsMatch(s, end, o, end2, m - 1, qtype, drop)
    ensures RecordsMatch(s, p, o, p2, m, qtype, drop)
  {
  }

  lemma {:induction false} MatchingRecords(s: seq<byte>, p: nat, o: seq<byte>, p2: nat, m: nat, qtype: uint16,
          drop: Families)
    requires RecordsMatch(s, p, o, p2, m, qtype, drop) && Records(s, p, m, qtype).Some?
    ensures Records(o, p2, m, qtype) == Some(AllWithout(Records(s, p, m, qtype).value, drop))
    decreases m
  {
    if m > 0 {
      var (q, end) := RecordEnd(s, p).value;
      var (q2, end2) := RecordEnd(o, p2).value;
      MatchingRecords(s, end, o, end2, m - 1, qtype, drop);
      var first, rest := RecordAt(s, p, q, end, qtype).value, Records(s, end, m - 1, qtype).value;
      assert ([first] + rest)[1..] == rest;
    }
  }

  /** f is where the pass ends, m records on, and o what it leaves, but for the header's counts. */
  ghost predicate Ahead(s: seq<byte>, o: seq<byte>, n: nat, qtype: uint16, drop: Families, st: Pass, known: set<nat>,
          f: Pass, m: nat)
    requires st.i <= n
  {
    match CopiedAnswers(s, n, qtype, drop, st)
    case None => false
    case Some(last) =>
      && f == last && SameBody(o, f.out) && m == f.i - st.i
      && Faithful(s, st, known) && PointsBack(s, st.p, m, qtype, known)
  }

  lemma {:induction false} PassMatches(s: seq<byte>, o: seq<byte>, n: nat, qtype: uint16, drop: Families, st: Pass,
          known: set<nat>, f: Pass, m: nat)
    requires st.i <= n && Ahead(s, o, n, qtype, drop, st, known, f, m)
    ensures RecordsMatch(s, st.p, o, |st.out|, m, qtype, drop)
    decreases m
  {
    if m > 0 {
      var next, known', q, q2 := NextRecord(s, o, n, qtype, drop, st, known, f, m);
      PassMatches(s, o, n, qtype, drop, next, known', f, m - 1);
      OneMoreMatches(s, st.p, q, next.p, o, |st.out|, q2, |next.out|, m, qtype, drop);
    }
  }

  /** The pass after one more record, which reads back as it should. */
  lemma NextRecord(s: seq<byte>, o: seq<byte>, n: nat, qtype: uint16, drop: Families, st: Pass, known: set<nat>,
          f: Pass, m: nat)
    returns (next: Pass, known': set<nat>, q: nat, q2: nat)
    requires st.i <= n && Ahead(s, o, n, qtype, drop, st, known, f, m) && m > 0
    ensures next.i <= n && Ahead(s, o, n, qtype, drop, next, known', f, m - 1)
    ensures RecordEnd(s, st.p) == Some((q, next.p)) && RecordEnd(o, |st.out|) == Some((q2, |next.out|))
    ensures RecordMatches(s, st.p, q, next.p, o, |st.out|, q2, |next.out|, qtype, drop)
  {
    var a := CopiedAnswer(s, st.p, qtype, drop, st.removed);
    q := CopiedName(s, st.p, st.removed).end;
    q2 := |st.out| + q - st.p;
    next, known' := Advance(st, a), KnownAfter(s, st.p, q, a.end, qtype, known);
    FirstRecord(s, st.p, qtype, drop, st.removed, q);
    RecordCarried(s, qtype, drop, st, known, q);
    RecordRead(s, o, qtype, drop, st, known, f.out, a, q, |st.out|, q2, |next.out|);
  }

  lemma RecordRead(s: seq<byte>, o: seq<byte>, qtype: uint16, drop: Families, st: Pass, known: set<nat>, out: seq<byte>,
                   a: Answer, q: nat, p2: nat, q2: nat, end2: nat)
    requires Faithful(s, st, known) && a == CopiedAnswer(s, st.p, qtype, drop, st.removed) && a.Answer?
    requires q == CopiedName(s, st.p, st.removed).end && q + 10 <= a.end
    requires p2 == |st.out| && q2 == |st.out| + q - st.p && end2 == |st.out + a.bytes|
    requires st.out + a.bytes <= out && SameBody(o, out) && RecordPointsBack(s, st.p, q, a.end, qtype, known)
    ensures RecordEnd(o, p2) == Some((q2, end2))
    ensures RecordMatches(s, st.p, q, a.end, o, p2, q2, end2, qtype, drop)
  {
    var k := KeptRdata(s, q, a.end, qtype, drop, st.removed);
    assert Extends(o, st.out + a.bytes) by {
      BodyExtends(o, out, st.out + a.bytes);
    }
    RecordReads(s, o, qtype, drop, st, known, a, q, p2, q2, end2, k);
  }

  lemma BodyExtends(o: seq<byte>, out: seq<byte>, less: seq<byte>)
    requires SameBody(o, out) && less <= out
    ensures Extends(o, less)
  {
    assert forall i :: 12 <= i < |out| ==> o[i] == o[12..][i - 12] == out[12..][i - 12] == out[i];
  }

  /** The question carries every label it holds into the pass. */
  lemma StartFaithful(s: seq<byte>, p: nat)
    requires NameEnd(s, 12).Some? && NamePointer(s, 12).None? && NameEnd(s, 12).value <= p <= |s|
    ensures Faithful(s, Start(s, p), NameStarts(s, 12))
  {
    StartInStep(s, p);
    EndedNameCopies(s, 12, []);
    NameCopiedAsIs(s, 12);
    var none: set<nat> := {};
    CarriedName(s, 12, s[..12], [], none);
    assert none + NameStarts(s, 12) == NameStarts(s, 12);
    assert s[..12] + s[12..NameEnd(s, 12).value] == s[..NameEnd(s, 12).value];
    CarriedFurther(s, s[..NameEnd(s, 12).value], s[..p], [], NameStarts(s, 12), NameEnd(s, 12).value, p);
  }

  lemma HeaderReads(s: seq<byte>, o: seq<byte>, q: nat)
    requires 12 <= q && q + 4 <= |o| <= |s| && o[..6] == s[..6] && o[12..q + 4] == s[12..q + 4]
    ensures U16(o, q) == U16(s, q) && U16(o, q + 2) == U16(s, q + 2)
    ensures U16(o, 0) == U16(s, 0) && U16(o, 2) == U16(s, 2) && U16(o, 4) == U16(s, 4)
    ensures Extends(o, s[..q])
  {
    assert forall i :: 0 <= i < 6 ==> o[i] == o[..6][i] == s[..6][i] == s[i];
    assert forall i :: 12 <= i < q + 4 ==> o[i] == o[12..q + 4][i - 12] == s[12..q + 4][i - 12] == s[i];
  }

  lemma QuestionReads(s: seq<byte>, o: seq<byte>, q: nat)
    requires 12 <= |s| && NameEnd(s, 12) == Some(q) && NamePointer(s, 12).None? && Extends(o, s[..q])
    ensures Name(o, 12) == Name(s, 12) && Name(s, 12).Some? && NameEnd(o, 12) == Some(q)
  {
    var none: set<nat> := {};
    EndedNameCopies(s, 12, []);
    NameCopiedAsIs(s, 12);
    assert s[..12] + s[12..q] == s[..q];
    assert Carried(s, s[..12], [], none, 12);
    Expands(s, 12, 12, none);
    NameReads(s, 12, o, s[..12], [], none);
  }

  lemma AnswersRead(s: seq<byte>, o: seq<byte>, qtype: uint16, drop: Families, f: Pass)
    requires RewrittenPass(s, qtype, drop) == Some(f) && SameBody(o, f.out)
    requires WellPointed(s, f.i, qtype)
    ensures var p := NameEnd(s, 12).value + 4;
            Records(s, p, f.i, qtype).Some? ==>
              Records(o, p, f.i, qtype) == Some(AllWithout(Records(s, p, f.i, qtype).value, drop))
  {
    var q := ParsedQuestion(s).value;
    StartsAhead(s, o, qtype, drop, f);
    PassMatches(s, o, q.answers, qtype, drop, Start(s, q.end), NameStarts(s, 12), f, f.i);
    if Records(s, q.end, f.i, qtype).Some? {
      MatchingRecords(s, q.end, o, q.end, f.i, qtype, drop);
    }
  }

  lemma StartsAhead(s: seq<byte>, o: seq<byte>, qtype: uint16, drop: Families, f: Pass)
    requires RewrittenPass(s, qtype, drop) == Some(f) && SameBody(o, f.out)
    requires WellPointed(s, f.i, qtype)
    ensures ParsedQuestion(s).Some? && ParsedQuestion(s).value.end == NameEnd(s, 12).value + 4
    ensures var q := ParsedQuestion(s).value;
            Ahead(s, o, q.answers, qtype, drop, Start(s, q.end), NameStarts(s, 12), f, f.i)
  {
    hide CopiedAnswers, Faithful, NameStarts;
    var q := ParsedQuestion(s).value;
    QuestionNameAgrees(s, 12);
    StartFaithful(s, q.end);
  }

  /**
   Meaning preservation. Let DropAddress rewrite a response whose compressed names point back.
   The message of the answers it keeps decodes as before: same ID, flags and question, same
   owner names, types, classes, TTLs, priorities and target names, and of the parameters
   exactly the hints of the dropped families gone. No other record is announced.
   */
  lemma {:induction false} RewriteKeepsMeaning(s: seq<byte>, qtype: uint16, drop: Families)
    requires Rewritten(s, qtype, drop).Some?
    requires var kept := RewrittenPass(s, qtype, drop).value.i;
             WellPointed(s, kept, qtype) && CnamesFill(s, NameEnd(s, 12).value + 4, kept, qtype)
    ensures var o := Rewritten(s, qtype, drop).value;
            var kept := RewrittenPass(s, qtype, drop).value.i;
            Decoded(s, kept, qtype).Some? &&
            var m := Decoded(s, kept, qtype).value;
            && U16(o, 6) == kept <= U16(s, 6) && U16(o, 8) == U16(o, 10) == 0
            && Decoded(o, kept, qtype) == Some(m.(answers := AllWithout(m.answers, drop)))
  {
    var o := Rewritten(s, qtype, drop).value;
    var f := RewrittenPass(s, qtype, drop).value;
    var q := NameEnd(s, 12).value;
    DecodesExactly(s, qtype, drop);
    RewriteKeepsQuestion(s, qtype, drop);
    NoOtherRecords(f.out, f.i);
    assert Decoded(o, f.i, qtype) == Some(Decoded(s, f.i, qtype).value.(answers := AllWithout(Decoded(s, f.i, qtype).value.answers, drop))) by {
      MessageReads(s, o, qtype, drop, f, q);
    }
  }

  /** The reply to an A or AAAA query whose family is dropped: the same question, and no record. */
  lemma {:induction false} EmptyKeepsQuestion(s: seq<byte>, qtype: uint16)
    requires Emptied(s).Some? && NameEnd(s, 12).Some? && NamePointer(s, 12).None?
    ensures var o := Emptied(s).value;
            && |o| == NameEnd(s, 12).value + 4 && U16(o, 6) == U16(o, 8) == U16(o, 10) == 0
            && Decoded(s, 0, qtype).Some? && Decoded(o, 0, qtype) == Decoded(s, 0, qtype)
  {
    hide QuestionNameEnd, NameEnd, Name, NamePointer;
    var o, q := Emptied(s).value, NameEnd(s, 12).value;
    QuestionNameAgrees(s, 12);
    assert o[..6] == s[..6] && o[12..q + 4] == s[12..q + 4];
    NoOtherRecords(s[..q + 4], 0);
    CountsKeepBody(s[..q + 4], 0);
    HeaderReads(s, o, q);
    QuestionReads(s, o, q);
  }

  lemma MessageReads(s: seq<byte>, o: seq<byte>, qtype: uint16, drop: Families, f: Pass, q: nat)
    requires RewrittenPass(s, qtype, drop) == Some(f) && SameBody(o, f.out) && KeepsQuestion(s, o)
    requires WellPointed(s, f.i, qtype) && NameEnd(s, 12) == Some(q) && Decoded(s, f.i, qtype).Some?
    ensures var m := Decoded(s, f.i, qtype).value;
            Decoded(o, f.i, qtype) == Some(m.(answers := AllWithout(m.answers, drop)))
  {
    hide NameEnd, Name, Records, AllWithout, CopiedAnswers;
    QuestionNameAgrees(s, 12);
    HeaderReads(s, o, q);
    QuestionReads(s, o, q);
    AnswersRead(s, o, qtype, drop, f);
    MessageJoins(s, o, q, f.i, qtype, drop);
  }

  lemma NoOtherRecords(out: seq<byte>, n: uint16)
    requires |out| >= 12
    ensures U16(WithCounts(out, n), 8) == U16(WithCounts(out, n), 10) == 0
  {
  }

  lemma MessageJoins(s: seq<byte>, o: seq<byte>, q: nat, n: nat, qtype: uint16, drop: Families)
    requires 12 <= q && q + 4 <= |o| && q + 4 <= |s| && NameEnd(s, 12) == NameEnd(o, 12) == Some(q)
    requires Name(o, 12) == Name(s, 12)
    requires U16(o, q) == U16(s, q) && U16(o, q + 2) == U16(s, q + 2)
    requires U16(o, 0) == U16(s, 0) && U16(o, 2) == U16(s, 2) && U16(o, 4) == U16(s, 4)
    requires Records(s, q + 4, n, qtype).Some? ==>
               Records(o, q + 4, n, qtype) == Some(AllWithout(Records(s, q + 4, n, qtype).value, drop))
    requires Decoded(s, n, qtype).Some?
    ensures var m := Decoded(s, n, qtype).value;
            Decoded(o, n, qtype) == Some(m.(answers := AllWithout(m.answers, drop)))
  {
    hide Records, AllWithout, Name, NameEnd, U16;
  }

  // ----- composition again

  lemma StaysAvoids(s: seq<byte>, st: Pass, known: set<nat>, p: nat)
    requires Carried(s, st.out, st.removed, known, st.p) && PointsInto(s, p, known)
    ensures NameAvoids(s, p, st.removed)
  {
    if NamePointer(s, p).Some? {
      assert Readable(s, st.out, st.removed, known, NamePointer(s, p).value);
    }
  }

  /** A pointer to a known label start does not lead inside a removed hint. */
  lemma RecordAvoids(s: seq<byte>, qtype: uint16, drop: Families, st: Pass, known: set<nat>, a: Answer, q: nat)
    requires Faithful(s, st, known) && a == CopiedAnswer(s, st.p, qtype, drop, st.removed) && a.Answer?
    requires q == CopiedName(s, st.p, st.removed).end && q + 10 <= a.end
    requires RecordPointsBack(s, st.p, q, a.end, qtype, known)
    ensures AnswerAvoids(s, st.p, qtype, st.removed)
  {
    StaysAvoids(s, st, known, st.p);
    if U16(s, q) == qtype {
      OwnerCarried(s, st, known, q, 0);
      var at := Pass(q + 10, UpToRdata(s, st, q, 0), st.removed, 0);
      StaysAvoids(s, at, known + NameStarts(s, st.p), q + 12);
    }
  }

  lemma NextAvoids(s: seq<byte>, o: seq<byte>, n: nat, qtype: uint16, drop: Families, st: Pass, known: set<nat>,
          f: Pass, m: nat)
    returns (a: Answer, next: Pass, known': set<nat>)
    requires st.i <= n && Ahead(s, o, n, qtype, drop, st, known, f, m) && m > 0
    ensures st.i < n && a == CopiedAnswer(s, st.p, qtype, drop, st.removed) && a.Answer? && next == Advance(st, a)
    ensures Ahead(s, o, n, qtype, drop, next, known', f, m - 1)
    ensures AnswerAvoids(s, st.p, qtype, st.removed)
  {
    var q := CopiedName(s, st.p, st.removed).end;
    a := CopiedAnswer(s, st.p, qtype, drop, st.removed);
    next, known' := Advance(st, a), KnownAfter(s, st.p, q, a.end, qtype, known);
    FirstRecord(s, st.p, qtype, drop, st.removed, q);
    RecordCarried(s, qtype, drop, st, known, q);
    RecordAvoids(s, qtype, drop, st, known, CopiedAnswer(s, st.p, qtype, drop, st.removed), q);
  }

  lemma {:induction false} PassAvoids(s: seq<byte>, o: seq<byte>, n: nat, qtype: uint16, drop: Families, st: Pass,
          known: set<nat>, f: Pass, m: nat)
    requires st.i <= n && Ahead(s, o, n, qtype, drop, st, known, f, m)
    ensures PointersAvoid(s, n, qtype, drop, st)
    decreases m
  {
    if m > 0 {
      var a, next, known' := NextAvoids(s, o, n, qtype, drop, st, known, f, m);
      PassAvoids(s, o, n, qtype, drop, next, known', f, m - 1);
    }
  }

  /** On responses that point back, dropping family after family is dropping them at once. */
  lemma {:induction false} WellPointedComposes(s: seq<byte>, qtype: uint16, d1: Families, d2: Families)
    requires Rewritten(s, qtype, d1).Some? && WellPointed(s, RewrittenPass(s, qtype, d1).value.i, qtype)
    ensures Rewritten(s, qtype, Both(d1, d2)).Some?
    ensures Rewritten(Rewritten(s, qtype, d1).value, qtype, d2) == Rewritten(s, qtype, Both(d1, d2))
  {
    HintsAvoided(s, Rewritten(s, qtype, d1).value, qtype, d1, RewrittenPass(s, qtype, d1).value);
    Composition.RewriteTwiceIsRewriteBoth(s, qtype, d1, d2);
  }

  lemma HintsAvoided(s: seq<byte>, o: seq<byte>, qtype: uint16, drop: Families, f: Pass)
    requires Rewritten(s, qtype, drop) == Some(o) && RewrittenPass(s, qtype, drop) == Some(f)
    requires WellPointed(s, f.i, qtype)
    ensures PointersAvoidHints(s, qtype, drop)
  {
    var q := ParsedQuestion(s).value;
    assert SameBody(o, f.out) by {
      RewriteKeepsQuestion(s, qtype, drop);
    }
    StartsAhead(s, o, qtype, drop, f);
    PassAvoids(s, o, q.answers, qtype, drop, Start(s, q.end), NameStarts(s, 12), f, f.i);
  }
}
