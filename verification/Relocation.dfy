/**
 What deleting byte ranges does to the offsets of a packet: the arithmetic behind the
 compression pointers DropAddress rewrites.
 */
module Relocation {
  import opened Wrappers
  import opened Bytes
  import opened Parser
  import opened Rewriter

  /** Non-empty ranges inside [lo, end), in order and apart from one another. */
  ghost predicate Ordered(removed: Removed, lo: nat, end: nat) {
    if removed == [] then lo <= end
    else
      var (at, len) := removed[|removed| - 1];
      0 < len && at + len <= end && Ordered(removed[..|removed| - 1], lo, at)
  }

  /** No range has t strictly inside; t may be where one begins. */
  ghost predicate Avoids(removed: Removed, t: nat) {
    forall r <- removed :: !(r.0 < t < r.0 + r.1)
  }

  /** The byte at t stays. */
  ghost predicate Stays(removed: Removed, t: nat) {
    forall r <- removed :: !(r.0 <= t < r.0 + r.1)
  }

  /** Where the byte at t goes. */
  function Moved(removed: Removed, t: nat): int {
    t - DeletedBefore(removed, t)
  }

  function Total(removed: Removed): nat {
    if removed == [] then 0 else Total(removed[..|removed| - 1]) + removed[|removed| - 1].1
  }

  lemma OrderedStarts(removed: Removed, lo: nat, end: nat)
    requires Ordered(removed, lo, end)
    ensures lo <= end
    ensures forall r <- removed :: lo <= r.0 && r.0 + r.1 <= end
  {
    if removed != [] {
      OrderedStarts(removed[..|removed| - 1], lo, removed[|removed| - 1].0);
      assert removed == removed[..|removed| - 1] + [removed[|removed| - 1]];
    }
  }

  lemma {:induction false} DeletedPastEnd(removed: Removed, lo: nat, end: nat, t: nat)
    requires Ordered(removed, lo, end) && end <= t
    ensures DeletedBefore(removed, t) == Total(removed)
  {
    if removed != [] {
      DeletedPastEnd(removed[..|removed| - 1], lo, removed[|removed| - 1].0, t);
    }
  }

  lemma {:induction false} NothingBefore(removed: Removed, t: nat)
    requires forall r <- removed :: t <= r.0
    ensures DeletedBefore(removed, t) == 0
  {
    if removed != [] {
      NothingBefore(removed[..|removed| - 1], t);
    }
  }

  lemma {:induction false} DeletedAppend(a: Removed, b: Removed, t: nat)
    ensures DeletedBefore(a + b, t) == DeletedBefore(a, t) + DeletedBefore(b, t)
  {
    if b == [] {
      assert a + b == a;
    } else {
      DeletedAppend(a, b[..|b| - 1], t);
      assert (a + b)[..|a + b| - 1] == a + b[..|b| - 1];
    }
  }

  lemma {:induction false} TotalAppend(a: Removed, b: Removed)
    ensures Total(a + b) == Total(a) + Total(b)
  {
    if b == [] {
      assert a + b == a;
    } else {
      TotalAppend(a, b[..|b| - 1]);
      assert (a + b)[..|a + b| - 1] == a + b[..|b| - 1];
    }
  }

  lemma {:induction false} OrderedAppend(a: Removed, b: Removed, lo: nat, mid: nat, end: nat)
    requires Ordered(a, lo, mid) && Ordered(b, mid, end)
    ensures Ordered(a + b, lo, end)
  {
    OrderedStarts(b, mid, end);
    if b == [] {
      assert a + b == a;
      OrderedWiden(a, lo, mid, end);
    } else {
      OrderedAppend(a, b[..|b| - 1], lo, mid, b[|b| - 1].0);
      assert (a + b)[..|a + b| - 1] == a + b[..|b| - 1];
    }
  }

  lemma OrderedWiden(removed: Removed, lo: nat, end: nat, wider: nat)
    requires Ordered(removed, lo, end) && end <= wider
    ensures Ordered(removed, lo, wider)
  {
  }

  /** Later deletions leave earlier offsets alone. */
  lemma MovedUnchanged(removed: Removed, more: Removed, t: nat)
    requires forall r <- more :: t <= r.0
    ensures Moved(removed + more, t) == Moved(removed, t)
  {
    DeletedAppend(removed, more, t);
    NothingBefore(more, t);
  }

  /** An offset no deletion straddles never moves below the first place a deletion may start. */
  lemma {:induction false} MovedStaysAbove(removed: Removed, lo: nat, end: nat, t: nat)
    requires Ordered(removed, lo, end) && Avoids(removed, t) && lo <= t
    ensures lo <= Moved(removed, t) <= t
  {
    if removed != [] {
      var (at, len) := removed[|removed| - 1];
      var init := removed[..|removed| - 1];
      OrderedStarts(init, lo, at);
      if t <= at {
        MovedStaysAbove(init, lo, at, t);
      } else {
        assert removed[|removed| - 1] in removed;
        DeletedPastEnd(init, lo, at, t);
        DeletedPastEnd(init, lo, at, at);
        MovedStaysAbove(init, lo, at, at);
      }
    }
  }

  /** Deleting keeps the order of the offsets no deletion straddles, strictly so from bytes that stay. */
  lemma {:induction false} MovedInOrder(removed: Removed, lo: nat, end: nat, t: nat, u: nat)
    requires Ordered(removed, lo, end) && t <= u && Avoids(removed, t) && Avoids(removed, u)
    ensures Moved(removed, t) <= Moved(removed, u)
    ensures t < u && Stays(removed, t) ==> Moved(removed, t) < Moved(removed, u)
  {
    if removed != [] {
      var (at, len) := removed[|removed| - 1];
      var init := removed[..|removed| - 1];
      assert removed[|removed| - 1] in removed;
      OrderedStarts(init, lo, at);
      if u <= at || t > at {
        MovedInOrder(init, lo, at, t, u);
      } else {
        DeletedPastEnd(init, lo, at, u);
        DeletedPastEnd(init, lo, at, at);
        MovedInOrder(init, lo, at, t, at);
      }
    }
  }

  lemma StraddledLandsTooLow(removed: Removed, lo: nat, end: nat, k: nat, t: nat)
    requires Ordered(removed, lo, end) && k < |removed|
    requires removed[k].0 < t < removed[k].0 + removed[k].1
    ensures Moved(removed, t) < Moved(removed, removed[k].0)
    decreases |removed|
  {
    var (at, len) := removed[|removed| - 1];
    var init := removed[..|removed| - 1];
    OrderedStarts(init, lo, at);
    if k < |removed| - 1 {
      assert init[k] in init;
      StraddledLandsTooLow(init, lo, at, k, t);
    } else {
      DeletedPastEnd(init, lo, at, t);
      DeletedPastEnd(init, lo, at, at);
    }
  }

  /**
   A relocated offset is out of order with the deletions below it exactly when one of them
   has it strictly inside.
   */
  lemma {:induction false} OutOfOrderExactlyInside(removed: Removed, lo: nat, end: nat, t: nat)
    requires Ordered(removed, lo, end)
    ensures Avoids(removed, t) <==> forall r <- removed :: r.0 < t ==> Moved(removed, r.0) <= Moved(removed, t)
  {
    if Avoids(removed, t) {
      forall r <- removed | r.0 < t ensures Moved(removed, r.0) <= Moved(removed, t) {
        StartsAvoid(removed, lo, end, r);
        MovedInOrder(removed, lo, end, r.0, t);
      }
    } else {
      var k: nat :| k < |removed| && removed[k].0 < t < removed[k].0 + removed[k].1;
      StraddledLandsTooLow(removed, lo, end, k, t);
      assert removed[k] in removed;
    }
  }

  lemma StartsAvoid(removed: Removed, lo: nat, end: nat, r: (nat, nat))
    requires Ordered(removed, lo, end) && r in removed
    ensures Avoids(removed, r.0)
  {
    var last := removed[|removed| - 1];
    var init := removed[..|removed| - 1];
    assert removed == init + [last];
    OrderedStarts(init, lo, last.0);
    if r in init {
      StartsAvoid(init, lo, last.0, r);
    }
  }

  /** A pointer to a byte that is not inside a deletion fits its 14 bits again. */
  lemma {:induction false} RelocationFits(removed: Removed, lo: nat, end: nat, t: nat)
    requires Ordered(removed, lo, end) && lo <= t < POINTER_RANGE && Avoids(removed, t)
    ensures PointerAt(PutPointer(Moved(removed, t)), 0) == Moved(removed, t)
  {
    MovedStaysAbove(removed, lo, end, t);
    PointerBytes(Moved(removed, t));
  }

  lemma PointerBytes(t: nat)
    requires t < POINTER_RANGE
    ensures PointerAt(PutPointer(t), 0) == t
  {
    var b := PutPointer(t);
    assert t % POINTER_RANGE == t;
    assert (b[0] as int) * 0x100 + b[1] == 0xC000 + t;
    Wrapped(t);
  }

  lemma Wrapped(t: nat)
    requires t < POINTER_RANGE
    ensures (0xC000 + t) % POINTER_RANGE == t
  {
  }

  lemma ModTwice(t: int)
    ensures PutPointer(t % POINTER_RANGE) == PutPointer(t)
  {
    var q, r := t / POINTER_RANGE, t % POINTER_RANGE;
    assert t == 0x100 * (0x40 * q + r / 0x100) + r % 0x100;
    assert r % POINTER_RANGE == r;
  }

  lemma PointerRoundTrip(s: seq<byte>, p: nat, t: int)
    requires p + 2 <= |s| && s[p..p + 2] == PutPointer(t)
    ensures s[p] >= 0xC0 && PointerAt(s, p) == t % POINTER_RANGE
    ensures PutPointer(PointerAt(s, p)) == PutPointer(t)
  {
    ModTwice(t);
    PointerBytes(t % POINTER_RANGE);
    var b := PutPointer(t % POINTER_RANGE);
    assert s[p] == s[p..p + 2][0] == b[0] && s[p + 1] == s[p..p + 2][1] == b[1];
    assert U16(s, p) == U16(b, 0);
  }

  // ----- lengths

  ghost predicate Accounts(k: Kept, p: nat, end: nat) {
    k.Kept? && Ordered(k.removed, p, end) && |k.bytes| + Total(k.removed) == end - p
  }

  lemma JoinAccounts(dropped: bool, p: nat, end: nat, param: seq<byte>, rest: Kept)
    requires param != [] && Accounts(rest, p + |param|, end)
    ensures Accounts(JoinParam(dropped, p, param, rest), p, end)
  {
    var len := |param|;
    if dropped {
      assert Ordered([(p, len)], p, p + len);
      OrderedAppend([(p, len)], rest.removed, p, p + len, end);
      TotalAppend([(p, len)], rest.removed);
    } else {
      OrderedFrom(rest.removed, p, p + len, end);
    }
  }

  lemma OrderedFrom(removed: Removed, lo: nat, mid: nat, end: nat)
    requires lo <= mid && Ordered(removed, mid, end)
    ensures Ordered(removed, lo, end)
  {
    if removed != [] {
      OrderedFrom(removed[..|removed| - 1], lo, mid, removed[|removed| - 1].0);
    }
  }

  lemma {:induction false} KeptParamsLengths(s: seq<byte>, p: nat, end: nat, drop: Families)
    requires p <= end <= |s| && KeptParams(s, p, end, drop).Kept?
    ensures Accounts(KeptParams(s, p, end, drop), p, end)
    decreases end - p
  {
    if p < end {
      var len := ParamLength(s, p, end);
      KeptParamsLengths(s, p + len, end, drop);
      JoinAccounts(Drops(drop, U16(s, p)), p, end, s[p..p + len], KeptParams(s, p + len, end, drop));
    }
  }

  lemma KeptRdataLengths(s: seq<byte>, q: nat, end: nat, qtype: uint16, drop: Families, removed: Removed)
    requires q + 10 <= end <= |s| && KeptRdata(s, q, end, qtype, drop, removed).Kept?
    ensures var k := KeptRdata(s, q, end, qtype, drop, removed);
            Ordered(k.removed, q + 10, end) && |k.bytes| + Total(k.removed) == end - (q + 10)
  {
    if U16(s, q) == qtype {
      var target := CopiedName(s, q + 12, removed);
      KeptParamsLengths(s, target.end, end, drop);
      OrderedFrom(KeptParams(s, target.end, end, drop).removed, q + 10, target.end, end);
    }
  }

  lemma JoinedFields(end: nat, owner: seq<byte>, fixed: seq<byte>, rdata: Kept)
    requires rdata.Kept? && |fixed| == 8 && |rdata.bytes| < 0x1_0000
    ensures var a := JoinAnswer(end, owner, fixed, rdata);
            && a.Answer? && a.end == end && a.removed == rdata.removed
            && a.bytes == owner + fixed + PutU16(|rdata.bytes|) + rdata.bytes
            && |a.bytes| == |owner| + 10 + |rdata.bytes|
            && U16(a.bytes, |owner| + 8) == |rdata.bytes|
            && a.bytes[|owner| + 10..] == rdata.bytes
  {
    var len, before := PutU16(|rdata.bytes|), |owner| + 8;
    var bytes := owner + fixed + len + rdata.bytes;
    assert bytes[before] == len[0] && bytes[before + 1] == len[1];
    assert bytes[before + 2..] == rdata.bytes;
  }

  /** What a record's copy is made of. */
  lemma AnswerParts(s: seq<byte>, p: nat, qtype: uint16, drop: Families, removed: Removed)
    requires CopiedAnswer(s, p, qtype, drop, removed).Answer?
    ensures var a := CopiedAnswer(s, p, qtype, drop, removed);
            var q := CopiedName(s, p, removed).end;
            && CopiedName(s, p, removed).Copied? && p <= q && |CopiedName(s, p, removed).bytes| == q - p
            && a.end == q + 10 + U16(s, q + 8) && (U16(s, q) == qtype || removed == [])
            && KeptRdata(s, q, a.end, qtype, drop, removed).Kept?
            && a == JoinAnswer(a.end, CopiedName(s, p, removed).bytes, s[q..q + 8], KeptRdata(s, q, a.end, qtype, drop, removed))
  {
    hide CopiedName, KeptRdata;
  }

  /**
   A copied record is its input less the removed bytes, and its length field, which C++ cuts
   to 16 bits, is exactly the length of its RDATA.
   */
  lemma {:induction false} CopiedAnswerLengths(s: seq<byte>, p: nat, qtype: uint16, drop: Families, removed: Removed)
    requires CopiedAnswer(s, p, qtype, drop, removed).Answer?
    ensures var a := CopiedAnswer(s, p, qtype, drop, removed);
            var q := CopiedName(s, p, removed).end;
            var rdata := KeptRdata(s, q, a.end, qtype, drop, removed);
            && Ordered(a.removed, q + 10, a.end) && |a.bytes| + Total(a.removed) == a.end - p
            && |a.bytes| == q - p + 10 + |rdata.bytes|
            && U16(a.bytes, q - p + 8) == |rdata.bytes|
            && a.bytes[q - p + 10..] == rdata.bytes
            && (qtype != U16(s, q) ==> a.removed == [])
  {
    hide CopiedName, CopiedAnswer, JoinAnswer;
    AnswerParts(s, p, qtype, drop, removed);
    var owner, a := CopiedName(s, p, removed), CopiedAnswer(s, p, qtype, drop, removed);
    var q := owner.end;
    KeptRdataLengths(s, q, a.end, qtype, drop, removed);
    JoinedFields(a.end, owner.bytes, s[q..q + 8], KeptRdata(s, q, a.end, qtype, drop, removed));
  }

  /** The invariant of the pass: the output is as long as the input it replaces less what was removed. */
  ghost predicate InStep(st: Pass) {
    && 12 <= st.p && Ordered(st.removed, 0, st.p)
    && |st.out| == Moved(st.removed, st.p)
    && 12 <= |st.out|
  }

  lemma InStepLength(st: Pass)
    requires InStep(st)
    ensures |st.out| == st.p - Total(st.removed)
  {
    DeletedPastEnd(st.removed, 0, st.p, st.p);
  }

  lemma StartInStep(s: seq<byte>, p: nat)
    requires 12 <= p <= |s|
    ensures InStep(Start(s, p))
  {
  }

  lemma ExtendInStep(st: Pass, a: Answer, mid: nat)
    requires InStep(st) && a.Answer?
    requires st.p <= mid && Ordered(a.removed, mid, a.end) && |a.bytes| + Total(a.removed) == a.end - st.p
    ensures InStep(Advance(st, a))
  {
    OrderedWiden(st.removed, 0, st.p, mid);
    OrderedAppend(st.removed, a.removed, 0, mid, a.end);
    DeletedPastEnd(st.removed, 0, st.p, st.p);
    DeletedPastEnd(st.removed + a.removed, 0, a.end, a.end);
    TotalAppend(st.removed, a.removed);
    OrderedStarts(a.removed, mid, a.end);
  }

  lemma AdvanceInStep(s: seq<byte>, qtype: uint16, drop: Families, st: Pass)
    requires InStep(st)
    requires CopiedAnswer(s, st.p, qtype, drop, st.removed).Answer?
    ensures InStep(Advance(st, CopiedAnswer(s, st.p, qtype, drop, st.removed)))
  {
    var a := CopiedAnswer(s, st.p, qtype, drop, st.removed);
    CopiedAnswerLengths(s, st.p, qtype, drop, st.removed);
    ExtendInStep(st, a, CopiedName(s, st.p, st.removed).end + 10);
  }

  lemma {:induction false} PassInStep(s: seq<byte>, n: nat, qtype: uint16, drop: Families, st: Pass)
    requires InStep(st) && st.i <= n && CopiedAnswers(s, n, qtype, drop, st).Some?
    ensures InStep(CopiedAnswers(s, n, qtype, drop, st).value)
    decreases n - st.i
  {
    if st.i < n {
      var a := CopiedAnswer(s, st.p, qtype, drop, st.removed);
      if a.Answer? {
        AdvanceInStep(s, qtype, drop, st);
        PassInStep(s, n, qtype, drop, Advance(st, a));
      }
    }
  }

  /** Size of a successful rewrite: the consumed bytes less the removed ones. */
  lemma {:induction false} RewrittenLength(s: seq<byte>, qtype: uint16, drop: Families)
    requires Rewritten(s, qtype, drop).Some?
    ensures var st := RewrittenPass(s, qtype, drop).value;
            |Rewritten(s, qtype, drop).value| == st.p - Total(st.removed)
  {
    var q := ParsedQuestion(s).value;
    StartInStep(s, q.end);
    PassInStep(s, q.answers, qtype, drop, Start(s, q.end));
    InStepLength(RewrittenPass(s, qtype, drop).value);
  }

  // ----- the question

  /** Equal but for the header's counts. */
  ghost predicate SameBody(a: seq<byte>, b: seq<byte>) {
    |a| == |b| >= 12 && a[..6] == b[..6] && a[12..] == b[12..]
  }

  lemma SameBodyAppend(a: seq<byte>, b: seq<byte>, c: seq<byte>, d: seq<byte>)
    requires |a| == |b| >= 12 && |c| == |d|
    ensures SameBody(a + c, b + d) <==> SameBody(a, b) && c == d
  {
    assert (a + c)[12..] == a[12..] + c && (b + d)[12..] == b[12..] + d;
    assert (a + c)[..6] == a[..6] && (b + d)[..6] == b[..6];
    if a[12..] + c == b[12..] + d {
      assert a[12..] == (a[12..] + c)[..|a| - 12] && b[12..] == (b[12..] + d)[..|a| - 12];
      assert c == (a[12..] + c)[|a| - 12..] && d == (b[12..] + d)[|a| - 12..];
    }
  }

  lemma CountsKeepBody(s: seq<byte>, n: uint16)
    requires |s| >= 12
    ensures SameBody(WithCounts(s, n), s) && U16(WithCounts(s, n), 6) == n
  {
  }

  lemma SameBodyCounts(a: seq<byte>, b: seq<byte>, n: uint16)
    requires |a| == |b| >= 12
    ensures WithCounts(a, n) == WithCounts(b, n) <==> SameBody(a, b)
  {
    var c, d := WithCounts(a, n), WithCounts(b, n);
    assert c[..6] == a[..6] && d[..6] == b[..6];
    assert c[12..] == a[12..] && d[12..] == b[12..];
  }

  /** A shorter packet with the same name scans the same: a read that failed fails again. */
  lemma {:induction false} QuestionNameSurvives(s: seq<byte>, o: seq<byte>, p: nat)
    requires QuestionNameEnd(s, p).Some? && QuestionNameEnd(s, p).value <= |o| <= |s|
    requires forall i :: p <= i < QuestionNameEnd(s, p).value ==> o[i] == s[i]
    ensures QuestionNameEnd(o, p) == QuestionNameEnd(s, p)
    decreases |s| - p
  {
    if s[p] != 0 {
      QuestionNameSurvives(s, o, if p + 1 + s[p] <= |s| then p + 1 + s[p] else p + 1);
    }
  }

  /** A packet that keeps the header, but for the counts, and the question, and is no longer. */
  ghost predicate KeepsQuestion(s: seq<byte>, o: seq<byte>) {
    && ParsedQuestion(s).Some? && ParsedQuestion(s).value.end <= |o| <= |s|
    && var end := ParsedQuestion(s).value.end;
       o[..6] == s[..6] && o[12..end] == s[12..end]
  }

  lemma QuestionSurvives(s: seq<byte>, o: seq<byte>)
    requires KeepsQuestion(s, o)
    ensures ParsedQuestion(o) == Some(ParsedQuestion(s).value.(answers := U16(o, 6)))
  {
    var end := ParsedQuestion(s).value.end;
    assert forall i :: 0 <= i < 6 ==> o[i] == o[..6][i] == s[i];
    forall i | 12 <= i < end ensures o[i] == s[i] {
      assert o[i] == o[12..end][i - 12] && s[i] == s[12..end][i - 12];
    }
    QuestionNameSurvives(s, o, 12);
  }

  lemma {:induction false} RewriteKeepsQuestion(s: seq<byte>, qtype: uint16, drop: Families)
    requires Rewritten(s, qtype, drop).Some?
    ensures var st := RewrittenPass(s, qtype, drop).value;
            var o := Rewritten(s, qtype, drop).value;
            InStep(st) && SameBody(o, st.out) && KeepsQuestion(s, o) && U16(o, 6) == st.i && st.p <= |s|
  {
    hide CopiedAnswers, QuestionNameEnd, U16, PutU16;
    var q := ParsedQuestion(s).value;
    var st := RewrittenPass(s, qtype, drop).value;
    StartInStep(s, q.end);
    PassInStep(s, q.answers, qtype, drop, Start(s, q.end));
    PassInPacket(s, q.answers, qtype, drop, Start(s, q.end));
    InStepLength(st);
    CountsKeepBody(st.out, st.i);
    assert st.out[..q.end] == s[..q.end];
    assert st.out[12..][..q.end - 12] == s[..q.end][12..];
  }

  lemma {:induction false} PassInPacket(s: seq<byte>, n: nat, qtype: uint16, drop: Families, st: Pass)
    requires st.i <= n && st.p <= |s| && CopiedAnswers(s, n, qtype, drop, st).Some?
    ensures CopiedAnswers(s, n, qtype, drop, st).value.p <= |s|
    decreases n - st.i
  {
    if st.i < n && CopiedAnswer(s, st.p, qtype, drop, st.removed).Answer? {
      PassInPacket(s, n, qtype, drop, Advance(st, CopiedAnswer(s, st.p, qtype, drop, st.removed)));
    }
  }
}
