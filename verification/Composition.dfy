/**
 Two rewrites in a row: when dropping some hints and then some more gives, byte for byte, what
 dropping all of them at once gives. A rewrite repeated changes nothing.
 */
module Composition {
  import opened Wrappers
  import opened Bytes
  import opened Parser
  import opened Rewriter
  import opened Relocation
  import opened Pointers
  import opened Copies
  import opened Hints
  import opened RewriteTwice
  import opened InTurn

  // ----- one record

  /** Removed ranges after the parameters of a record, from those before it. */
  lemma TrackOne(first: Removed, second: Removed, both: Removed, g1: Removed, g2: Removed, g: Removed, q: nat,
          q2: nat, t: nat)
    requires Ordered(first, 0, q) && q2 == Moved(first, q) && Ordered(second, 0, q2)
    requires TracksAt(first, second, both, t)
    requires (forall r <- g1 :: q <= r.0) && (forall r <- g2 :: q2 <= r.0) && (forall r <- g :: q <= r.0)
    requires q <= t ==> SumsUp(q, q2, g1, g2, g, t)
    ensures TracksAt(first + g1, second + g2, both + g, t)
  {
    if Avoids(first + g1, t) {
      assert forall r <- first :: r in first + g1;
      assert forall r <- g1 :: r in first + g1;
      DeletedAppend(first, g1, t);
      DeletedAppend(both, g, t);
      if t < q {
        TrackBelow(first, second, both, g1, g2, g, q, q2, t);
      } else {
        TrackAbove(first, second, both, g1, g2, g, q, q2, t);
      }
    }
  }

  lemma TrackBelow(first: Removed, second: Removed, both: Removed, g1: Removed, g2: Removed, g: Removed, q: nat,
          q2: nat, t: nat)
    requires Ordered(first, 0, q) && q2 == Moved(first, q) && t < q && Avoids(first, t)
    requires TracksAt(first, second, both, t)
    requires (forall r <- g1 :: q <= r.0) && (forall r <- g2 :: q2 <= r.0) && (forall r <- g :: q <= r.0)
    ensures Moved(first + g1, t) >= 0 && Moved(both + g, t) == Moved(second + g2, Moved(first + g1, t))
  {
    OrderedStarts(first, 0, q);
    MovedInOrder(first, 0, q, t, q);
    MovedUnchanged(first, g1, t);
    MovedUnchanged(both, g, t);
    MovedUnchanged(second, g2, Moved(first, t));
  }

  lemma TrackAbove(first: Removed, second: Removed, both: Removed, g1: Removed, g2: Removed, g: Removed, q: nat,
          q2: nat, t: nat)
    requires Ordered(first, 0, q) && q2 == Moved(first, q) && Ordered(second, 0, q2) && q <= t && Avoids(g1, t)
    requires Moved(first, t) >= 0 && Moved(both, t) == Moved(second, Moved(first, t))
    requires SumsUp(q, q2, g1, g2, g, t)
    ensures Moved(first + g1, t) >= 0 && Moved(both + g, t) == Moved(second + g2, Moved(first + g1, t))
  {
    hide Ordered, Total, DeletedBefore;
    var moved := t - q + q2 - DeletedBefore(g1, t);
    MovedPast(first, g1, q, q);
    MovedPast(first, g1, q, t);
    assert Moved(first + g1, t) == moved && Moved(first, t) == t - q + q2;
    MovedPast(second, g2, q2, moved);
    assert Moved(second + g2, moved) == moved - Total(second) - DeletedBefore(g2, moved);
    MovedPast(second, g2, q2, t - q + q2);
    MoreDeleted(both, g, t);
    assert DeletedBefore(g, t) == DeletedBefore(g1, t) + DeletedBefore(g2, moved);
  }

  lemma MovedPast(removed: Removed, more: Removed, end: nat, t: nat)
    requires Ordered(removed, 0, end) && end <= t
    ensures Moved(removed, t) == t - Total(removed)
    ensures Moved(removed + more, t) == t - Total(removed) - DeletedBefore(more, t)
  {
    DeletedPastEnd(removed, 0, end, t);
    DeletedAppend(removed, more, t);
  }

  lemma MoreDeleted(removed: Removed, more: Removed, t: nat)
    ensures Moved(removed + more, t) == Moved(removed, t) - DeletedBefore(more, t)
  {
    DeletedAppend(removed, more, t);
  }

  /** k1 kept first and k2 of that second are to k kept at once as SameKept says, and the offsets go on tracking. */
  ghost predicate Agree(alike: bool, covers: bool, first: Removed, second: Removed, both: Removed, k1: Kept, k2: Kept,
                        k: Kept) {
    && SameKept(alike, covers, k1, k2, k)
    && Steps(covers, first + k1.removed, second + k2.removed, both + k.removed)
  }

  lemma JoinTargetAgrees(alike: bool, covers: bool, first: Removed, second: Removed, both: Removed, priority: seq<byte>,
                         target1: seq<byte>, target2: seq<byte>, target: seq<byte>, k1: Kept, k2: Kept, k: Kept)
    requires Agree(true, covers, first, second, both, k1, k2, k)
    requires |target2| == |target| && (target2 == target <==> alike)
    ensures Agree(alike, covers, first, second, both, JoinTarget(priority + target1, k1),
                  JoinTarget(priority + target2, k2), JoinTarget(priority + target, k))
  {
    SameHead(priority + target2, k2.bytes, priority + target, k.bytes);
    SameHead(priority, target2, priority, target);
  }

  lemma StepParams(s: seq<byte>, q: nat, end: nat, o: seq<byte>, q2: nat, end2: nat, d1: Families, d2: Families,
                   first: Removed, second: Removed, both: Removed)
    requires q <= end <= |s| && KeptParams(s, q, end, d1).Kept? && Holds(o, q2, KeptParams(s, q, end, d1).bytes)
    requires end2 == q2 + |KeptParams(s, q, end, d1).bytes|
    requires Ordered(first, 0, q) && q2 == Moved(first, q) && Ordered(second, 0, q2)
    requires Steps(Covers(d1, d2), first, second, both)
    ensures Agree(true, Covers(d1, d2), first, second, both,
                  KeptParams(s, q, end, d1), KeptParams(o, q2, end2, d2), KeptParams(s, q, end, Both(d1, d2)))
  {
    HoldsAligned(s, q, end, o, q2, end2, d1);
    ParamsTwice(s, q, end, o, q2, end2, d1, d2);
    if !Covers(d1, d2) {
      var l := LayoutOf(s, q, end);
      KeptGone(s, q, end, d1);
      KeptGone(o, q2, end2, d2);
      KeptGone(s, q, end, Both(d1, d2));
      AlignedLayout(s, q, end, o, q2, end2, d1);
      GoneFrom(l, q, d1);
      GoneFrom(Left(l, d1), q2, d2);
      GoneFrom(l, q, Both(d1, d2));
      StepLayout(l, q, q2, d1, d2, first, second, both);
    }
  }

  lemma StepLayout(l: Layout, q: nat, q2: nat, d1: Families, d2: Families, first: Removed, second: Removed,
          both: Removed)
    requires NoEmptyParam(l) && Ordered(first, 0, q) && q2 == Moved(first, q) && Ordered(second, 0, q2)
    requires Tracks(first, second, both)
    ensures Tracks(first + Gone(l, q, d1), second + Gone(Left(l, d1), q2, d2), both + Gone(l, q, Both(d1, d2)))
  {
    var g1, g2, g := Gone(l, q, d1), Gone(Left(l, d1), q2, d2), Gone(l, q, Both(d1, d2));
    GoneFrom(l, q, d1);
    GoneFrom(Left(l, d1), q2, d2);
    GoneFrom(l, q, Both(d1, d2));
    forall t: nat ensures TracksAt(first + g1, second + g2, both + g, t) {
      assert TracksAt(first, second, both, t);
      if q <= t {
        LayoutSumsUp(l, q, q2, d1, d2, t);
      }
      TrackOne(first, second, both, g1, g2, g, q, q2, t);
    }
  }

  // ----- the pass

  /**
   The two rewrites, and the one by both, at the same record; the second reads what the first wrote.
   The outputs so far are equal when alike.
   */
  ghost predicate Together(alike: bool, covered: bool, st1: Pass, st2: Pass, st: Pass) {
    && InStep(st1) && InStep(st2) && st.p == st1.p && st2.p == |st1.out| && st1.i == st2.i == st.i
    && SameOutput(alike, st2.out, st.out)
    && Steps(covered, st1.removed, st2.removed, st.removed)
  }

  ghost predicate SameOutput(alike: bool, out2: seq<byte>, out: seq<byte>) {
    |out2| == |out| >= 12 && (SameBody(out2, out) <==> alike)
  }

  /** a1 is the record copied first, a2 that copied again, a the record copied once: as long, and equal when alike. */
  ghost predicate SameAnswer(alike: bool, a1: Answer, p2: nat, a2: Answer, a: Answer) {
    && a1.Answer? && a2.Answer? && a.Answer? && a.end == a1.end && a2.end == p2 + |a1.bytes|
    && |a2.bytes| == |a.bytes| && (a2.bytes == a.bytes <==> alike)
  }

  /** The RDATA of a record of the queried type. */
  lemma SvcbTwice(s: seq<byte>, p: nat, end: nat, o: seq<byte>, p2: nat, end2: nat, d1: Families, d2: Families,
                  first: Removed, second: Removed, both: Removed)
    requires p <= end <= |s| && KeptSvcb(s, p, end, d1, first).Kept?
    requires Holds(o, p2, KeptSvcb(s, p, end, d1, first).bytes)
    requires end2 == p2 + |KeptSvcb(s, p, end, d1, first).bytes|
    requires Ordered(first, 0, p) && p2 == Moved(first, p) && Ordered(second, 0, p2)
    requires Steps(Covers(d1, d2), first, second, both)
    ensures Agree(NameComposes(s, p + 2, first, second, both), Covers(d1, d2), first, second, both,
                  KeptSvcb(s, p, end, d1, first), KeptSvcb(o, p2, end2, d2, second),
                  KeptSvcb(s, p, end, Both(d1, d2), both))
  {
    hide CopiedName, KeptParams, Agree, SameCopy, Steps, NameComposes;
    var q := CopiedName(s, p + 2, first).end;
    var q2 := p2 + q - p;
    SvcbHolds(s, p, end, o, p2, d1, first, q, q2);
    assert Agree(true, Covers(d1, d2), first, second, both,
                 KeptParams(s, q, end, d1), KeptParams(o, q2, end2, d2), KeptParams(s, q, end, Both(d1, d2))) by {
      ParamsAgree(s, p, o, p2, q, end, q2, end2, d1, d2, first, second, both);
    }
    NameTwice(s, p + 2, o, p2 + 2, first, second, both);
    SvcbAgrees(s, p, end, o, p2, end2, d1, d2, first, second, both, q, q2, NameComposes(s, p + 2, first, second, both));
  }

  lemma ParamsAgree(s: seq<byte>, p: nat, o: seq<byte>, p2: nat, q: nat, end: nat, q2: nat, end2: nat, d1: Families,
                    d2: Families, first: Removed, second: Removed, both: Removed)
    requires p <= q <= end <= |s| && KeptParams(s, q, end, d1).Kept? && Holds(o, q2, KeptParams(s, q, end, d1).bytes)
    requires end2 == q2 + |KeptParams(s, q, end, d1).bytes| && q2 == p2 + q - p
    requires Ordered(first, 0, p) && p2 == Moved(first, p) && Ordered(second, 0, p2)
    requires Steps(Covers(d1, d2), first, second, both)
    ensures Agree(true, Covers(d1, d2), first, second, both,
                  KeptParams(s, q, end, d1), KeptParams(o, q2, end2, d2), KeptParams(s, q, end, Both(d1, d2)))
  {
    MovedPast(first, [], p, p);
    MovedPast(first, [], p, q);
    OrderedWiden(first, 0, p, q);
    OrderedWiden(second, 0, p2, q2);
    StepParams(s, q, end, o, q2, end2, d1, d2, first, second, both);
  }

  lemma SvcbAgrees(s: seq<byte>, p: nat, end: nat, o: seq<byte>, p2: nat, end2: nat, d1: Families, d2: Families,
                   first: Removed, second: Removed, both: Removed, q: nat, q2: nat, alike: bool)
    requires p + 2 <= q <= end <= |s| && p2 + 2 <= q2 <= end2 <= |o| && s[p..p + 2] == o[p2..p2 + 2]
    requires SameCopy(alike, CopiedName(s, p + 2, first), p2 + 2, CopiedName(o, p2 + 2, second), CopiedName(s, p + 2, both))
    requires q == CopiedName(s, p + 2, first).end && q2 == p2 + q - p
    requires Agree(true, Covers(d1, d2), first, second, both,
                   KeptParams(s, q, end, d1), KeptParams(o, q2, end2, d2), KeptParams(s, q, end, Both(d1, d2)))
    ensures Agree(alike, Covers(d1, d2), first, second, both, KeptSvcb(s, p, end, d1, first),
                  KeptSvcb(o, p2, end2, d2, second), KeptSvcb(s, p, end, Both(d1, d2), both))
  {
    JoinTargetAgrees(alike, Covers(d1, d2), first, second, both, s[p..p + 2], CopiedName(s, p + 2, first).bytes,
                     CopiedName(o, p2 + 2, second).bytes, CopiedName(s, p + 2, both).bytes,
                     KeptParams(s, q, end, d1), KeptParams(o, q2, end2, d2), KeptParams(s, q, end, Both(d1, d2)));
  }

  /** A record of another type, which the first rewrite only copies while it has removed nothing. */
  lemma OtherAgrees(s: seq<byte>, q: nat, end: nat, o: seq<byte>, q2: nat, end2: nat, qtype: uint16, d1: Families,
                    d2: Families)
    requires q + 10 <= end <= |s| && q2 + 10 <= end2 <= |o| && U16(s, q) == U16(o, q2) != qtype
    requires o[q2 + 10..end2] == s[q + 10..end]
    ensures Agree(true, Covers(d1, d2), [], [], [], KeptRdata(s, q, end, qtype, d1, []),
                  KeptRdata(o, q2, end2, qtype, d2, []), KeptRdata(s, q, end, qtype, Both(d1, d2), []))
  {
    if !Covers(d1, d2) {
      forall t: nat ensures TracksAt([], [], [], t) {
      }
    }
  }

  /** The TargetName of a record whose fixed fields begin at q, when its type is qtype. */
  ghost predicate TargetComposes(s: seq<byte>, q: nat, qtype: uint16, first: Removed, second: Removed, both: Removed)
    requires q + 10 <= |s|
  {
    U16(s, q) == qtype ==> NameComposes(s, q + 10 + 2, first, second, both)
  }

  lemma RdataTwice(s: seq<byte>, q: nat, end: nat, o: seq<byte>, q2: nat, end2: nat, qtype: uint16, d1: Families,
                   d2: Families, first: Removed, second: Removed, both: Removed)
    requires q + 10 <= end <= |s| && q2 + 10 <= end2 <= |o| && U16(s, q) == U16(o, q2)
    requires KeptRdata(s, q, end, qtype, d1, first).Kept?
    requires Holds(o, q2 + 10, KeptRdata(s, q, end, qtype, d1, first).bytes)
    requires end2 == q2 + 10 + |KeptRdata(s, q, end, qtype, d1, first).bytes|
    requires Ordered(first, 0, q + 10) && q2 + 10 == Moved(first, q + 10) && Ordered(second, 0, q2 + 10)
    requires Steps(Covers(d1, d2), first, second, both)
    requires U16(s, q) == qtype || both == []
    ensures Agree(TargetComposes(s, q, qtype, first, second, both), Covers(d1, d2), first, second, both,
                  KeptRdata(s, q, end, qtype, d1, first), KeptRdata(o, q2, end2, qtype, d2, second),
                  KeptRdata(s, q, end, qtype, Both(d1, d2), both))
  {
    assert U16(s, q) != qtype ==> first == [] && second == [];
    hide NameComposes, KeptSvcb, Agree, Steps, Ordered, DeletedBefore;
    if U16(s, q) != qtype {
      OtherAgrees(s, q, end, o, q2, end2, qtype, d1, d2);
    } else {
      SvcbTwice(s, q + 10, end, o, q2 + 10, end2, d1, d2, first, second, both);
    }
  }

  /** The three copies of a record are as SameAnswer says, and the passes after it go on tracking. */
  ghost predicate AnswersAgree(alike: bool, covers: bool, st1: Pass, st2: Pass, st: Pass, a1: Answer, a2: Answer, a: Answer) {
    && SameAnswer(alike, a1, st2.p, a2, a)
    && Steps(covers, st1.removed + a1.removed, st2.removed + a2.removed, st.removed + a.removed)
  }

  lemma JoinAnswerAgrees(named: bool, alike: bool, covers: bool, st1: Pass, st2: Pass, st: Pass, a1: Answer, end2: nat,
                         owner2: seq<byte>, owner: seq<byte>, fixed: seq<byte>, k1: Kept, k2: Kept, k: Kept)
    requires a1.Answer? && k1.Kept? && a1.removed == k1.removed && end2 == st2.p + |a1.bytes|
    requires |owner2| == |owner| && (owner2 == owner <==> named)
    requires Agree(alike, covers, st1.removed, st2.removed, st.removed, k1, k2, k)
    ensures AnswersAgree(named && alike, covers, st1, st2, st, a1, JoinAnswer(end2, owner2, fixed, k2),
                         JoinAnswer(a1.end, owner, fixed, k))
  {
    hide PutU16, Steps;
    var len := PutU16(|k.bytes| % 0x1_0000);
    SameHead(owner2 + fixed + len, k2.bytes, owner + fixed + len, k.bytes);
    SameHead(owner2 + fixed, len, owner + fixed, len);
    SameHead(owner2, fixed, owner, fixed);
  }

  lemma AnswerTwice(s: seq<byte>, o: seq<byte>, qtype: uint16, d1: Families, d2: Families, st1: Pass, st2: Pass,
                    st: Pass, alike: bool)
    requires Together(alike, Covers(d1, d2), st1, st2, st)
    requires CopiedAnswer(s, st1.p, qtype, d1, st1.removed).Answer?
    requires Holds(o, st2.p, CopiedAnswer(s, st1.p, qtype, d1, st1.removed).bytes)
    ensures var a1, a2 := CopiedAnswer(s, st1.p, qtype, d1, st1.removed), CopiedAnswer(o, st2.p, qtype, d2, st2.removed);
            var a := CopiedAnswer(s, st.p, qtype, Both(d1, d2), st.removed);
            (a2.CutOff? && a.CutOff?) ||
            AnswersAgree(AnswerComposes(s, st1.p, qtype, st1.removed, st2.removed, st.removed), Covers(d1, d2), st1, st2, st,
                         a1, a2, a)
  {
    hide CopiedName, KeptRdata, JoinAnswer, NameComposes;
    var p, p2 := st1.p, st2.p;
    AnswerParts(s, p, qtype, d1, st1.removed);
    var a1 := CopiedAnswer(s, p, qtype, d1, st1.removed);
    var q := CopiedName(s, p, st1.removed).end;
    var q2 := p2 + q - p;
    var k1 := KeptRdata(s, q, a1.end, qtype, d1, st1.removed);
    AnswerHolds(s, p, o, p2, qtype, d1, st1.removed, q, q2, k1);
    NameTwice(s, p, o, p2, st1.removed, st2.removed, st.removed);
    if U16(s, q) == qtype || st.removed == [] {
      AnswerGoesOn(s, o, qtype, d1, d2, st1, st2, st, alike, a1, q, q2, k1);
    }
  }

  lemma AnswerIs(s: seq<byte>, p: nat, qtype: uint16, drop: Families, removed: Removed, q: nat, end: nat)
    requires CopiedName(s, p, removed).Copied? && q == CopiedName(s, p, removed).end && q + 10 <= end <= |s|
    requires end == q + 10 + U16(s, q + 8) && (U16(s, q) == qtype || removed == [])
    ensures CopiedAnswer(s, p, qtype, drop, removed)
         == JoinAnswer(end, CopiedName(s, p, removed).bytes, s[q..q + 8], KeptRdata(s, q, end, qtype, drop, removed))
  {
  }

  lemma AtRdata(st1: Pass, st2: Pass, q: nat, q2: nat)
    requires InStep(st1) && InStep(st2) && st2.p == |st1.out| && st1.p <= q && q2 == st2.p + q - st1.p
    ensures Ordered(st1.removed, 0, q + 10) && q2 + 10 == Moved(st1.removed, q + 10) && Ordered(st2.removed, 0, q2 + 10)
  {
    MovedPast(st1.removed, [], st1.p, st1.p);
    MovedPast(st1.removed, [], st1.p, q + 10);
    OrderedWiden(st1.removed, 0, st1.p, q + 10);
    OrderedWiden(st2.removed, 0, st2.p, q2 + 10);
  }

  lemma NameAndTarget(s: seq<byte>, p: nat, qtype: uint16, first: Removed, second: Removed, both: Removed, q: nat)
    requires CopiedName(s, p, first).Copied? && q == CopiedName(s, p, first).end && q + 10 <= |s|
    ensures AnswerComposes(s, p, qtype, first, second, both) <==>
            NameComposes(s, p, first, second, both) && TargetComposes(s, q, qtype, first, second, both)
  {
    hide NameComposes, CopiedName;
  }

  lemma AnswerGoesOn(s: seq<byte>, o: seq<byte>, qtype: uint16, d1: Families, d2: Families, st1: Pass, st2: Pass,
                     st: Pass, alike: bool, a1: Answer, q: nat, q2: nat, k1: Kept)
    requires Together(alike, Covers(d1, d2), st1, st2, st) && a1.Answer? && k1.Kept?
    requires SameCopy(NameComposes(s, st1.p, st1.removed, st2.removed, st.removed), CopiedName(s, st1.p, st1.removed),
                      st2.p, CopiedName(o, st2.p, st2.removed), CopiedName(s, st1.p, st.removed))
    requires q == CopiedName(s, st1.p, st1.removed).end && q2 == st2.p + q - st1.p
    requires q + 10 <= a1.end <= |s| && a1.end == q + 10 + U16(s, q + 8) && a1.removed == k1.removed
    requires k1 == KeptRdata(s, q, a1.end, qtype, d1, st1.removed)
    requires q2 + 10 <= |o| && o[q2..q2 + 8] == s[q..q + 8] && U16(o, q2) == U16(s, q) && U16(o, q2 + 8) == |k1.bytes|
    requires Holds(o, q2 + 10, k1.bytes) && q2 + 10 + |k1.bytes| == st2.p + |a1.bytes|
    requires U16(s, q) == qtype || st.removed == []
    ensures AnswersAgree(AnswerComposes(s, st1.p, qtype, st1.removed, st2.removed, st.removed), Covers(d1, d2), st1, st2, st,
                         a1, CopiedAnswer(o, st2.p, qtype, d2, st2.removed),
                         CopiedAnswer(s, st.p, qtype, Both(d1, d2), st.removed))
  {
    assert st.removed == [] ==> st2.removed == [];
    NameAndTarget(s, st1.p, qtype, st1.removed, st2.removed, st.removed, q);
    hide NameComposes, CopiedName, CopiedAnswer, KeptRdata, AnswersAgree, Agree, JoinAnswer, Steps, InStep, SameOutput,
         DeletedBefore, AnswerComposes, TargetComposes;
    var end2 := q2 + 10 + |k1.bytes|;
    var k2 := KeptRdata(o, q2, end2, qtype, d2, st2.removed);
    var k := KeptRdata(s, q, a1.end, qtype, Both(d1, d2), st.removed);
    var targets := TargetComposes(s, q, qtype, st1.removed, st2.removed, st.removed);
    assert Agree(targets, Covers(d1, d2), st1.removed, st2.removed, st.removed, k1, k2, k) by {
      AtRdata(st1, st2, q, q2);
      RdataTwice(s, q, a1.end, o, q2, end2, qtype, d1, d2, st1.removed, st2.removed, st.removed);
    }
    AnswerIs(o, st2.p, qtype, d2, st2.removed, q2, end2);
    AnswerIs(s, st1.p, qtype, Both(d1, d2), st.removed, q, a1.end);
    JoinAnswerAgrees(NameComposes(s, st1.p, st1.removed, st2.removed, st.removed), targets, Covers(d1, d2), st1, st2, st,
                     a1, end2, CopiedName(o, st2.p, st2.removed).bytes, CopiedName(s, st1.p, st.removed).bytes, s[q..q + 8], k1, k2, k);
  }

  lemma AdvanceTogether(s: seq<byte>, o: seq<byte>, qtype: uint16, d1: Families, d2: Families, st1: Pass, st2: Pass,
                        st: Pass, alike: bool, more: bool)
    requires Together(alike, Covers(d1, d2), st1, st2, st)
    requires AnswersAgree(more, Covers(d1, d2), st1, st2, st, CopiedAnswer(s, st1.p, qtype, d1, st1.removed),
                          CopiedAnswer(o, st2.p, qtype, d2, st2.removed), CopiedAnswer(s, st.p, qtype, Both(d1, d2), st.removed))
    ensures Together(alike && more, Covers(d1, d2), Advance(st1, CopiedAnswer(s, st1.p, qtype, d1, st1.removed)),
                     Advance(st2, CopiedAnswer(o, st2.p, qtype, d2, st2.removed)),
                     Advance(st, CopiedAnswer(s, st.p, qtype, Both(d1, d2), st.removed)))
  {
    hide CopiedAnswer, Steps;
    AdvanceInStep(s, qtype, d1, st1);
    AdvanceInStep(o, qtype, d2, st2);
    SameBodyAppend(st2.out, st.out, CopiedAnswer(o, st2.p, qtype, d2, st2.removed).bytes,
                   CopiedAnswer(s, st.p, qtype, Both(d1, d2), st.removed).bytes);
  }

  // ----- the whole pass

  /** A record the first rewrite cut off is cut off by both at once. */
  lemma CutOffAgain(s: seq<byte>, p: nat, qtype: uint16, d1: Families, drop: Families, first: Removed, both: Removed)
    requires CopiedAnswer(s, p, qtype, d1, first).CutOff? && both != []
    ensures CopiedAnswer(s, p, qtype, drop, both).CutOff?
  {
    NameEndAlike(s, p, first, both);
  }

  /** The second rewrite reads o, which is what the first one writes from st1 on. */
  ghost predicate Follows(s: seq<byte>, o: seq<byte>, n: nat, qtype: uint16, d1: Families, st1: Pass)
    requires st1.i <= n
  {
    && CopiedAnswers(s, n, qtype, d1, st1).Some?
    && SameBody(o, CopiedAnswers(s, n, qtype, d1, st1).value.out)
  }

  /** Both passes succeed, keep as many records and come to outputs as long, equal when alike. */
  ghost predicate SameEnd(alike: bool, second: Option<Pass>, both: Option<Pass>) {
    second.Some? && both.Some? && second.value.i == both.value.i && SameOutput(alike, second.value.out, both.value.out)
  }

  lemma {:induction false} PassTwice(s: seq<byte>, o: seq<byte>, n: nat, qtype: uint16, d1: Families, d2: Families,
                                     st1: Pass, st2: Pass, st: Pass, alike: bool)
    requires st1.i <= n && Follows(s, o, n, qtype, d1, st1) && Together(alike, Covers(d1, d2), st1, st2, st)
    ensures SameEnd(alike && PointersCompose(s, n, qtype, d1, d2, st1, st2.removed, st.removed),
                    CopiedAnswers(o, CopiedAnswers(s, n, qtype, d1, st1).value.i, qtype, d2, st2),
                    CopiedAnswers(s, n, qtype, Both(d1, d2), st))
    ensures Covers(d1, d2) || PointersAvoid(s, n, qtype, d1, st1) ==>
              PointersCompose(s, n, qtype, d1, d2, st1, st2.removed, st.removed)
    decreases n - st1.i, 1
  {
    hide AnswerComposes, AnswerAvoids;
    if st1.i < n {
      var a1 := CopiedAnswer(s, st1.p, qtype, d1, st1.removed);
      if a1.CutOff? {
        CutOffAgain(s, st1.p, qtype, d1, Both(d1, d2), st1.removed, st.removed);
      } else {
        RecordTwice(s, o, n, qtype, d1, d2, st1, st2, st, alike);
      }
    }
  }

  lemma RecordTwice(s: seq<byte>, o: seq<byte>, n: nat, qtype: uint16, d1: Families, d2: Families,
                    st1: Pass, st2: Pass, st: Pass, alike: bool)
    requires st1.i < n && Follows(s, o, n, qtype, d1, st1) && Together(alike, Covers(d1, d2), st1, st2, st)
    requires CopiedAnswer(s, st1.p, qtype, d1, st1.removed).Answer?
    ensures SameEnd(alike && PointersCompose(s, n, qtype, d1, d2, st1, st2.removed, st.removed),
                    CopiedAnswers(o, CopiedAnswers(s, n, qtype, d1, st1).value.i, qtype, d2, st2),
                    CopiedAnswers(s, n, qtype, Both(d1, d2), st))
    ensures Covers(d1, d2) || PointersAvoid(s, n, qtype, d1, st1) ==>
              PointersCompose(s, n, qtype, d1, d2, st1, st2.removed, st.removed)
    decreases n - st1.i, 0
  {
    hide AnswerComposes, AnswerAvoids, CopiedAnswer, GoneAt, GoneAfter, Steps, InStep, SameOutput, SameBody;
    var a1 := CopiedAnswer(s, st1.p, qtype, d1, st1.removed);
    var a2 := CopiedAnswer(o, st2.p, qtype, d2, st2.removed);
    var a := CopiedAnswer(s, st.p, qtype, Both(d1, d2), st.removed);
    var next := Advance(st1, a1);
    OutputHolds(s, o, n, qtype, d1, st1);
    AnswerTwice(s, o, qtype, d1, d2, st1, st2, st, alike);
    if a2.Answer? {
      var more := AnswerComposes(s, st1.p, qtype, st1.removed, st2.removed, st.removed);
      AdvanceTogether(s, o, qtype, d1, d2, st1, st2, st, alike, more);
      RemovedAfter(s, st1.p, o, st2.p, qtype, d1, d2, st1.removed, st2.removed);
      RemovedFromRecord(s, st.p, qtype, Both(d1, d2), st.removed);
      if Covers(d1, d2) || AnswerAvoids(s, st1.p, qtype, st1.removed) {
        AnswerAvoiding(s, qtype, Covers(d1, d2), st1, st2, st, alike);
      }
      PassTwice(s, o, n, qtype, d1, d2, next, Advance(st2, a2), Advance(st, a), alike && more);
    }
  }

  lemma OutputHolds(s: seq<byte>, o: seq<byte>, n: nat, qtype: uint16, d1: Families, st1: Pass)
    requires st1.i < n && InStep(st1) && Follows(s, o, n, qtype, d1, st1)
    requires CopiedAnswer(s, st1.p, qtype, d1, st1.removed).Answer?
    ensures Holds(o, |st1.out|, CopiedAnswer(s, st1.p, qtype, d1, st1.removed).bytes)
  {
    hide CopiedAnswer;
    AppendedHolds(o, CopiedAnswers(s, n, qtype, d1, st1).value.out, st1.out,
                  CopiedAnswer(s, st1.p, qtype, d1, st1.removed).bytes);
  }

  lemma AnswerAvoiding(s: seq<byte>, qtype: uint16, covered: bool, st1: Pass, st2: Pass, st: Pass, alike: bool)
    requires Together(alike, covered, st1, st2, st)
    requires covered || AnswerAvoids(s, st1.p, qtype, st1.removed)
    ensures AnswerComposes(s, st1.p, qtype, st1.removed, st2.removed, st.removed)
  {
    hide NameComposes, NameAvoids, Steps;
    AvoidingComposes(s, st1.p, st1.p, covered, st1.removed, st2.removed, st.removed);
    var owner := CopiedName(s, st1.p, st1.removed);
    if owner.Copied? && owner.end + 10 <= |s| && U16(s, owner.end) == qtype {
      AvoidingComposes(s, owner.end + 12, st1.p, covered, st1.removed, st2.removed, st.removed);
    }
  }

  // ----- the theorems

  /**
   Rewriting a rewritten packet never fails, nor does rewriting once with both sets of families.
   The two outputs are as long; they are equal exactly when every pointer copied by all three
   passes is moved as far by the two relocations as by the one.
   */
  lemma {:induction false} RewritesComposeExactly(s: seq<byte>, qtype: uint16, d1: Families, d2: Families)
    requires Rewritten(s, qtype, d1).Some?
    ensures var twice, once := Rewritten(Rewritten(s, qtype, d1).value, qtype, d2), Rewritten(s, qtype, Both(d1, d2));
            && twice.Some? && once.Some? && |twice.value| == |once.value|
            && (twice == once <==> InTurnIsAtOnce(s, qtype, d1, d2))
    ensures Covers(d1, d2) || PointersAvoidHints(s, qtype, d1) ==> InTurnIsAtOnce(s, qtype, d1, d2)
  {
    hide CopiedAnswers, PointersCompose, PointersAvoid, WithCounts;
    var q := ParsedQuestion(s).value;
    var o := Rewritten(s, qtype, d1).value;
    RewriteKeepsQuestion(s, qtype, d1);
    QuestionSurvives(s, o);
    StartsTogether(s, o, q.end, Covers(d1, d2));
    PassTwice(s, o, q.answers, qtype, d1, d2, Start(s, q.end), Start(o, q.end), Start(s, q.end), true);
    var second := RewrittenPass(o, qtype, d2).value;
    var both := RewrittenPass(s, qtype, Both(d1, d2)).value;
    SameBodyCounts(second.out, both.out, second.i);
  }

  /**
   So two rewrites come to one whenever no pointer the first copied leads inside a hint it removed,
   or the second drops nothing new.
   */
  lemma {:induction false} RewriteTwiceIsRewriteBoth(s: seq<byte>, qtype: uint16, d1: Families, d2: Families)
    requires Rewritten(s, qtype, d1).Some?
    requires Covers(d1, d2) || PointersAvoidHints(s, qtype, d1)
    ensures Rewritten(s, qtype, Both(d1, d2)).Some?
    ensures Rewritten(Rewritten(s, qtype, d1).value, qtype, d2) == Rewritten(s, qtype, Both(d1, d2))
  {
    hide Rewritten, InTurnIsAtOnce, PointersAvoidHints;
    RewritesComposeExactly(s, qtype, d1, d2);
  }

  lemma StartsTogether(s: seq<byte>, o: seq<byte>, p: nat, covered: bool)
    requires 12 <= p <= |s| && p <= |o| && o[..6] == s[..6] && o[12..p] == s[12..p]
    ensures Together(true, covered, Start(s, p), Start(o, p), Start(s, p))
  {
    StartInStep(s, p);
    StartInStep(o, p);
    assert o[..p][..6] == s[..p][..6] && o[..p][12..] == s[..p][12..];
    forall t: nat ensures TracksAt([], [], [], t) {
    }
  }

  lemma EmptiedTwice(s: seq<byte>)
    requires Emptied(s).Some?
    ensures Emptied(Emptied(s).value) == Emptied(s)
  {
    var end := ParsedQuestion(s).value.end;
    var o := Emptied(s).value;
    CountsKeepBody(s[..end], 0);
    assert o[..6] == s[..end][..6] == s[..6];
    assert o[12..end] == o[12..] == s[..end][12..] == s[12..end];
    QuestionSurvives(s, o);
    assert o[..end] == o;
    SameBodyCounts(o, s[..end], 0);
  }

  /** DropAddress with the same arguments again succeeds and changes no byte, whatever the packet. */
  lemma {:induction false} DropAddressIdempotent(s: seq<byte>, qtype: uint16, drop: Families)
    requires Dropped(s, qtype, drop).Some?
    ensures Dropped(Dropped(s, qtype, drop).value, qtype, drop) == Dropped(s, qtype, drop)
  {
    hide Emptied, Rewritten;
    if Emptied(s).Some? {
      EmptiedTwice(s);
    }
    if Rewritten(s, qtype, drop).Some? {
      assert Both(drop, drop) == drop;
      RewriteTwiceIsRewriteBoth(s, qtype, drop, drop);
    }
  }

  /**
   Dropping one family and then the other is dropping both, for every query type, but for an SVCB or
   HTTPS response with a pointer that two relocations do not move as far as one.
   */
  lemma {:induction false} DropAddressComposes(s: seq<byte>, qtype: uint16, d1: Families, d2: Families)
    requires Dropped(s, qtype, d1).Some?
    ensures Dropped(Dropped(s, qtype, d1).value, qtype, d2) == Dropped(s, qtype, Both(d1, d2)) <==>
            (qtype == TYPE_SVCB || qtype == TYPE_HTTPS ==> InTurnIsAtOnce(s, qtype, d1, d2))
  {
    hide Emptied, Rewritten, InTurnIsAtOnce;
    if Emptied(s).Some? {
      EmptiedTwice(s);
    }
    if qtype == TYPE_SVCB || qtype == TYPE_HTTPS {
      RewritesComposeExactly(s, qtype, d1, d2);
    }
  }
}
