/**
 What a rewrite writes, byte for byte, whatever its pointers: the input less the hints of the
 dropped families, but for the pointers, lengths and counts it patches; and where it stops.
 */
module Content {
  import opened Wrappers
  import opened Bytes
  import opened Parser
  import opened Rewriter
  import opened Relocation
  import opened Decoder
  import opened Hints

  // ----- where bytes go

  /** The byte at x of what began at p is in out, as much nearer as bytes are removed before it. */
  ghost predicate Lands(s: seq<byte>, p: nat, out: seq<byte>, removed: Removed, x: nat) {
    var y := Moved(removed, x) - p;
    x < |s| && 0 <= y < |out| && out[y] == s[x]
  }

  /** out is [p, end) of s less the removed ranges, but for the patched bytes. */
  ghost predicate Carries(s: seq<byte>, p: nat, end: nat, out: seq<byte>, removed: Removed, patched: set<nat>) {
    && Ordered(removed, p, end) && end <= |s| && |out| + Total(removed) == end - p
    && forall x: nat {:trigger Lands(s, p, out, removed, x)} ::
         p <= x < end && Stays(removed, x) && x !in patched ==> Lands(s, p, out, removed, x)
  }

  lemma LandsBefore(s: seq<byte>, p: nat, out1: seq<byte>, out2: seq<byte>, removed1: Removed, removed2: Removed, x: nat)
    requires Lands(s, p, out1, removed1, x) && forall r <- removed2 :: x <= r.0
    ensures Lands(s, p, out1 + out2, removed1 + removed2, x)
  {
    MovedUnchanged(removed1, removed2, x);
  }

  lemma LandsBehind(s: seq<byte>, p: nat, mid: nat, out1: seq<byte>, out2: seq<byte>, removed1: Removed,
                    removed2: Removed, x: nat)
    requires p <= mid <= x && Ordered(removed1, p, mid) && |out1| + Total(removed1) == mid - p
    requires Lands(s, mid, out2, removed2, x)
    ensures Lands(s, p, out1 + out2, removed1 + removed2, x)
  {
    DeletedAppend(removed1, removed2, x);
    DeletedPastEnd(removed1, p, mid, x);
  }

  /** Two stretches, one behind the other. */
  lemma CarriesJoin(s: seq<byte>, p: nat, mid: nat, end: nat, out1: seq<byte>, out2: seq<byte>, removed1: Removed,
                    removed2: Removed, patched1: set<nat>, patched2: set<nat>)
    requires Carries(s, p, mid, out1, removed1, patched1) && Carries(s, mid, end, out2, removed2, patched2)
    ensures Carries(s, p, end, out1 + out2, removed1 + removed2, patched1 + patched2)
  {
    OrderedAppend(removed1, removed2, p, mid, end);
    TotalAppend(removed1, removed2);
    OrderedStarts(removed1, p, mid);
    OrderedStarts(removed2, mid, end);
    forall x: nat | p <= x < end && Stays(removed1 + removed2, x) && x !in patched1 + patched2
      ensures Lands(s, p, out1 + out2, removed1 + removed2, x)
    {
      assert forall r <- removed1 :: r in removed1 + removed2;
      assert forall r <- removed2 :: r in removed1 + removed2;
      if x < mid {
        LandsBefore(s, p, out1, out2, removed1, removed2, x);
      } else {
        LandsBehind(s, p, mid, out1, out2, removed1, removed2, x);
      }
    }
  }

  lemma AsIs(s: seq<byte>, p: nat, end: nat)
    requires p <= end <= |s|
    ensures Carries(s, p, end, s[p..end], [], {})
  {
  }

  lemma CarriesDropped(s: seq<byte>, p: nat, end: nat)
    requires p < end <= |s|
    ensures Carries(s, p, end, [], [(p, end - p)], {})
  {
    var removed: Removed := [(p, end - p)];
    assert removed[..0] == [] && Ordered(removed, p, end) && Total(removed) == end - p;
    assert removed[0] in removed;
  }

  // ----- the patched bytes

  /** The two bytes of the pointer that ends the name at p. */
  function PointerPlace(s: seq<byte>, p: nat): set<nat>
    decreases |s| - p
  {
    if p >= |s| || s[p] == 0 then {}
    else if s[p] >= 0xC0 then {p, p + 1}
    else PointerPlace(s, p + 1 + s[p])
  }

  /** Of the record at p: its owner's pointer, RDLENGTH and, in a record of type qtype, the target's pointer. */
  function Patches(s: seq<byte>, p: nat, qtype: uint16): set<nat> {
    match RecordEnd(s, p)
    case None => {}
    case Some((q, end)) =>
      PointerPlace(s, p) + {q + 8, q + 9} + if U16(s, q) == qtype then PointerPlace(s, q + 12) else {}
  }

  function AllPatches(s: seq<byte>, p: nat, n: nat, qtype: uint16): set<nat>
    decreases n
  {
    match RecordEnd(s, p)
    case None => {}
    case Some((_, end)) => if n == 0 then {} else Patches(s, p, qtype) + AllPatches(s, end, n - 1, qtype)
  }

  /** The dropped hints of n records from p on. */
  function AllGone(s: seq<byte>, p: nat, n: nat, qtype: uint16, drop: Families): Removed
    decreases n
  {
    match RecordEnd(s, p)
    case None => []
    case Some((_, end)) => if n == 0 then [] else GoneAt(s, p, qtype, drop) + AllGone(s, end, n - 1, qtype, drop)
  }

  /** The record behind n others. */
  function RecordBehind(s: seq<byte>, p: nat, n: nat): Option<nat>
    decreases n
  {
    if n == 0 then Some(p)
    else
      match RecordEnd(s, p)
      case None => None
      case Some((_, end)) => RecordBehind(s, end, n - 1)
  }

  // ----- the pieces of a record

  lemma {:induction false} NameCarries(s: seq<byte>, p: nat, removed: Removed)
    requires CopiedName(s, p, removed).Copied?
    ensures Carries(s, p, CopiedName(s, p, removed).end, CopiedName(s, p, removed).bytes, [], PointerPlace(s, p))
    decreases |s| - p
  {
    hide PutPointer, PointerAt, Carries;
    if s[p] == 0 {
      AsIs(s, p, p + 1);
      assert s[p..p + 1] == [0];
    } else if s[p] >= 0xC0 {
      PointerCarries(s, p, CopiedName(s, p, removed).bytes);
    } else {
      var next := p + 1 + s[p];
      var rest := CopiedName(s, next, removed);
      AsIs(s, p, next);
      NameCarries(s, next, removed);
      var none: set<nat> := {};
      var gone: Removed := [];
      CarriesJoin(s, p, next, rest.end, s[p..next], rest.bytes, gone, gone, none, PointerPlace(s, next));
      assert gone + gone == gone;
      assert none + PointerPlace(s, next) == PointerPlace(s, p);
    }
  }

  lemma PointerCarries(s: seq<byte>, p: nat, out: seq<byte>)
    requires p + 2 <= |s| && |out| == 2
    ensures Carries(s, p, p + 2, out, [], {p, p + 1})
  {
  }

  lemma {:induction false} ParamsCarry(s: seq<byte>, p: nat, end: nat, drop: Families)
    requires p <= end <= |s| && KeptParams(s, p, end, drop).Kept?
    ensures Carries(s, p, end, KeptParams(s, p, end, drop).bytes, KeptParams(s, p, end, drop).removed, {})
    decreases end - p
  {
    hide Carries, U16;
    if p == end {
      AsIs(s, p, end);
      assert s[p..end] == [];
    } else {
      var next := p + ParamLength(s, p, end);
      var rest := KeptParams(s, next, end, drop);
      ParamsCarry(s, next, end, drop);
      var none: set<nat> := {};
      assert none + none == none;
      if Drops(drop, U16(s, p)) {
        CarriesDropped(s, p, next);
        CarriesJoin(s, p, next, end, [], rest.bytes, [(p, next - p)], rest.removed, none, none);
        assert [] + rest.bytes == rest.bytes;
      } else {
        AsIs(s, p, next);
        CarriesJoin(s, p, next, end, s[p..next], rest.bytes, [], rest.removed, none, none);
        assert [] + rest.removed == rest.removed;
      }
    }
  }

  lemma SvcbCarries(s: seq<byte>, p: nat, end: nat, drop: Families, removed: Removed)
    requires p <= end <= |s| && KeptSvcb(s, p, end, drop, removed).Kept?
    ensures var k := KeptSvcb(s, p, end, drop, removed);
            Carries(s, p, end, k.bytes, k.removed, PointerPlace(s, p + 2))
  {
    hide Carries, CopiedName, KeptParams, PointerPlace;
    var target := CopiedName(s, p + 2, removed);
    var params := KeptParams(s, target.end, end, drop);
    var none: set<nat> := {};
    AsIs(s, p, p + 2);
    NameCarries(s, p + 2, removed);
    CarriesJoin(s, p, p + 2, target.end, s[p..p + 2], target.bytes, [], [], none, PointerPlace(s, p + 2));
    ParamsCarry(s, target.end, end, drop);
    CarriesJoin(s, p, target.end, end, s[p..p + 2] + target.bytes, params.bytes, [] + [], params.removed,
                none + PointerPlace(s, p + 2), none);
    assert [] + [] + params.removed == params.removed;
    assert none + PointerPlace(s, p + 2) + none == PointerPlace(s, p + 2);
  }

  lemma RdataCarries(s: seq<byte>, q: nat, end: nat, qtype: uint16, drop: Families, removed: Removed)
    requires q + 10 <= end <= |s| && KeptRdata(s, q, end, qtype, drop, removed).Kept?
    ensures var k := KeptRdata(s, q, end, qtype, drop, removed);
            Carries(s, q + 10, end, k.bytes, k.removed, if U16(s, q) == qtype then PointerPlace(s, q + 12) else {})
  {
    hide Carries, KeptSvcb, PointerPlace;
    if U16(s, q) == qtype {
      SvcbCarries(s, q + 10, end, drop, removed);
    } else {
      AsIs(s, q + 10, end);
    }
  }

  /** A copied record is the record less the dropped hints, but for its pointers and its length. */
  lemma {:induction false} AnswerCarries(s: seq<byte>, p: nat, qtype: uint16, drop: Families, removed: Removed)
    requires CopiedAnswer(s, p, qtype, drop, removed).Answer?
    ensures var a := CopiedAnswer(s, p, qtype, drop, removed);
            && RecordEnd(s, p).Some? && RecordEnd(s, p).value.1 == a.end && a.removed == GoneAt(s, p, qtype, drop)
            && Carries(s, p, a.end, a.bytes, a.removed, Patches(s, p, qtype))
  {
    hide Carries, CopiedName, CopiedAnswer, KeptRdata, PointerPlace, GoneAt, RecordEnd;
    AnswerParts(s, p, qtype, drop, removed);
    RemovedFromRecord(s, p, qtype, drop, removed);
    var owner, a := CopiedName(s, p, removed), CopiedAnswer(s, p, qtype, drop, removed);
    var q := owner.end;
    FirstRecord(s, p, qtype, drop, removed, q);
    NameCarries(s, p, removed);
    RdataCarries(s, q, a.end, qtype, drop, removed);
    FieldsCarry(s, p, q, a.end, owner.bytes, PutU16(|KeptRdata(s, q, a.end, qtype, drop, removed).bytes| % 0x1_0000),
                KeptRdata(s, q, a.end, qtype, drop, removed), PointerPlace(s, p),
                if U16(s, q) == qtype then PointerPlace(s, q + 12) else {});
  }

  lemma FieldsCarry(s: seq<byte>, p: nat, q: nat, end: nat, owner: seq<byte>, length: seq<byte>, k: Kept,
                    patched1: set<nat>, patched2: set<nat>)
    requires q + 10 <= end && k.Kept? && |length| == 2
    requires Carries(s, p, q, owner, [], patched1) && Carries(s, q + 10, end, k.bytes, k.removed, patched2)
    ensures q + 10 <= |s|
    ensures Carries(s, p, end, owner + s[q..q + 8] + length + k.bytes, k.removed, patched1 + {q + 8, q + 9} + patched2)
  {
    AsIs(s, q, q + 8);
    PointerCarries(s, q + 8, length);
    hide Carries;
    var none: set<nat> := {};
    CarriesJoin(s, p, q, q + 8, owner, s[q..q + 8], [], [], patched1, none);
    CarriesJoin(s, p, q + 8, q + 10, owner + s[q..q + 8], length, [] + [], [], patched1 + none, {q + 8, q + 9});
    CarriesJoin(s, p, q + 10, end, owner + s[q..q + 8] + length, k.bytes, [] + [] + [], k.removed,
                patched1 + none + {q + 8, q + 9}, patched2);
    assert [] + [] + [] + k.removed == k.removed;
    assert patched1 + none + {q + 8, q + 9} + patched2 == patched1 + {q + 8, q + 9} + patched2;
  }

  // ----- the pass

  /** The pass over the answers carries them, behind the header, and removes just their dropped hints. */
  lemma {:induction false} PassCarries(s: seq<byte>, n: nat, qtype: uint16, drop: Families, st: Pass, patched: set<nat>)
    requires st.i <= n && 12 <= |st.out| && Carries(s, 12, st.p, st.out[12..], st.removed, patched)
    requires CopiedAnswers(s, n, qtype, drop, st).Some?
    ensures var f := CopiedAnswers(s, n, qtype, drop, st).value;
            && Carries(s, 12, f.p, f.out[12..], f.removed, patched + AllPatches(s, st.p, f.i - st.i, qtype))
            && f.removed == st.removed + AllGone(s, st.p, f.i - st.i, qtype, drop)
            && RecordBehind(s, st.p, f.i - st.i) == Some(f.p)
            && (f.i < n ==> f.removed != [] && OtherType(s, f.p, qtype))
    decreases n - st.i
  {
    hide Carries, CopiedAnswer, Patches, GoneAt, RecordEnd, OtherType;
    var a := if st.i < n then CopiedAnswer(s, st.p, qtype, drop, st.removed) else CutOff;
    if a.Answer? {
      var next, more := Advance(st, a), Patches(s, st.p, qtype);
      AnswerCarries(s, st.p, qtype, drop, st.removed);
      CarriesJoin(s, 12, st.p, a.end, st.out[12..], a.bytes, st.removed, a.removed, patched, more);
      assert next.out[12..] == st.out[12..] + a.bytes;
      PassCarries(s, n, qtype, drop, next, patched + more);
      var f := CopiedAnswers(s, n, qtype, drop, next).value;
      assert patched + more + AllPatches(s, next.p, f.i - next.i, qtype) == patched + AllPatches(s, st.p, f.i - st.i, qtype);
      assert st.removed + a.removed + AllGone(s, next.p, f.i - next.i, qtype, drop)
          == st.removed + AllGone(s, st.p, f.i - st.i, qtype, drop);
    } else {
      NothingYet(s, st.p, qtype, drop);
      assert patched + {} == patched && st.removed + [] == st.removed;
      if st.i < n {
        CutOffExactly(s, st.p, qtype, drop, st.removed);
      }
    }
  }

  lemma NothingYet(s: seq<byte>, p: nat, qtype: uint16, drop: Families)
    ensures AllPatches(s, p, 0, qtype) == {} && AllGone(s, p, 0, qtype, drop) == [] && RecordBehind(s, p, 0) == Some(p)
  {
  }

  /** The record at p, as far as its fixed fields, is of another type. */
  predicate OtherType(s: seq<byte>, p: nat, qtype: uint16) {
    match NameEnd(s, p)
    case None => false
    case Some(q) => q + 10 <= |s| && U16(s, q) != qtype
  }

  lemma CutOffExactly(s: seq<byte>, p: nat, qtype: uint16, drop: Families, removed: Removed)
    ensures CopiedAnswer(s, p, qtype, drop, removed).CutOff? <==> removed != [] && OtherType(s, p, qtype)
  {
    hide CopiedName, NameEnd, KeptRdata;
    if CopiedName(s, p, removed).Copied? {
      CopyEndsName(s, p, removed);
    } else if NameEnd(s, p).Some? {
      EndedNameCopies(s, p, removed);
    }
  }

  /**
   Every byte of the n kept records and of the question that is not in a dropped hint of a record of
   type qtype comes out, as much nearer as such hints end before it; only pointers and lengths change.
   The records kept are the first ones, and nothing but their dropped hints is gone.
   */
  lemma {:induction false} RewriteKeepsBytes(s: seq<byte>, qtype: uint16, drop: Families)
    requires Rewritten(s, qtype, drop).Some?
    ensures var o, f, q := Rewritten(s, qtype, drop).value, RewrittenPass(s, qtype, drop).value, ParsedQuestion(s).value;
            && o[..6] == s[..6] && o[6..12] == PutU16(f.i) + [0, 0, 0, 0]
            && RecordBehind(s, q.end, f.i) == Some(f.p) && f.removed == AllGone(s, q.end, f.i, qtype, drop)
            && Ordered(f.removed, 12, f.p) && |o| == f.p - Total(f.removed)
            && (forall x: nat {:trigger Lands(s, 0, o, f.removed, x)} ::
                  12 <= x < f.p && Stays(f.removed, x) && x !in AllPatches(s, q.end, f.i, qtype) ==>
                    Lands(s, 0, o, f.removed, x))
  {
    hide CopiedAnswers, AllPatches, AllGone, Stays, RecordBehind, OtherType;
    var q := ParsedQuestion(s).value;
    var o, f := Rewritten(s, qtype, drop).value, RewrittenPass(s, qtype, drop).value;
    var none, patched: set<nat> := {}, AllPatches(s, q.end, f.i, qtype);
    assert Start(s, q.end).out[12..] == s[12..q.end];
    AsIs(s, 12, q.end);
    PassCarries(s, q.answers, qtype, drop, Start(s, q.end), none);
    assert none + patched == patched && [] + AllGone(s, q.end, f.i, qtype, drop) == AllGone(s, q.end, f.i, qtype, drop);
    RewriteKeepsQuestion(s, qtype, drop);
    assert o[..6] == f.out[..6] == s[..6];
    forall x: nat | 12 <= x < f.p && Stays(f.removed, x) && x !in patched ensures Lands(s, 0, o, f.removed, x) {
      assert Lands(s, 12, o[12..], f.removed, x);
    }
  }

  /** No byte comes out but from a byte that stays. */
  lemma {:induction false} ComesFrom(removed: Removed, lo: nat, end: nat, y: nat) returns (x: nat)
    requires Ordered(removed, lo, end) && y < Moved(removed, end)
    ensures x < end && Stays(removed, x) && Moved(removed, x) == y
  {
    if removed == [] {
      x := y;
    } else {
      var (at, len) := removed[|removed| - 1];
      var init := removed[..|removed| - 1];
      OrderedStarts(init, lo, at);
      DeletedPastEnd(init, lo, at, at);
      DeletedPastEnd(init, lo, at, end);
      if y < Moved(init, at) {
        x := ComesFrom(init, lo, at, y);
      } else {
        x := y + Total(removed);
        DeletedPastEnd(init, lo, at, x);
      }
      assert removed == init + [(at, len)];
    }
  }

  // ----- where the pass stops

  /** The i-th record from p on is of type qtype and has a hint that goes. */
  predicate Hinted(s: seq<byte>, p: nat, i: nat, qtype: uint16, drop: Families) {
    match RecordBehind(s, p, i)
    case None => false
    case Some(at) => GoneAt(s, at, qtype, drop) != []
  }

  /** The j-th record is of another type, and one before it has a hint that goes. */
  predicate StopsAt(s: seq<byte>, p: nat, j: nat, qtype: uint16, drop: Families) {
    match RecordBehind(s, p, j)
    case None => false
    case Some(at) => OtherType(s, at, qtype) && exists i: nat | i < j :: Hinted(s, p, i, qtype, drop)
  }

  lemma {:induction false} SomethingGone(s: seq<byte>, p: nat, n: nat, qtype: uint16, drop: Families)
    requires RecordBehind(s, p, n).Some?
    ensures AllGone(s, p, n, qtype, drop) != [] <==> exists i: nat | i < n :: Hinted(s, p, i, qtype, drop)
    decreases n
  {
    hide RecordEnd, GoneAt;
    if n > 0 {
      var end := RecordEnd(s, p).value.1;
      SomethingGone(s, end, n - 1, qtype, drop);
      forall i: nat | i < n - 1 ensures Hinted(s, p, i + 1, qtype, drop) == Hinted(s, end, i, qtype, drop) {
      }
      if AllGone(s, p, n, qtype, drop) != [] {
        if GoneAt(s, p, qtype, drop) != [] {
          assert Hinted(s, p, 0, qtype, drop);
        } else {
          var i: nat :| i < n - 1 && Hinted(s, end, i, qtype, drop);
          assert Hinted(s, p, i + 1, qtype, drop);
        }
      }
      if i: nat :| i < n && Hinted(s, p, i, qtype, drop) {
        if i > 0 {
          assert Hinted(s, end, i - 1, qtype, drop);
        }
      }
    }
  }

  /** A record the pass copies is not one to stop at. */
  lemma {:induction false} GoesOn(s: seq<byte>, n: nat, qtype: uint16, drop: Families, st: Pass, j: nat)
    requires st.i <= n && CopiedAnswers(s, n, qtype, drop, st).Some?
    requires j < CopiedAnswers(s, n, qtype, drop, st).value.i - st.i
    ensures RecordBehind(s, st.p, j).Some?
    ensures st.removed + AllGone(s, st.p, j, qtype, drop) == [] || !OtherType(s, RecordBehind(s, st.p, j).value, qtype)
    decreases n - st.i
  {
    hide CopiedAnswer, RecordEnd, GoneAt, OtherType, Carries, Patches;
    var a := CopiedAnswer(s, st.p, qtype, drop, st.removed);
    AnswerCarries(s, st.p, qtype, drop, st.removed);
    if j > 0 {
      GoesOn(s, n, qtype, drop, Advance(st, a), j - 1);
      assert st.removed + a.removed + AllGone(s, a.end, j - 1, qtype, drop) == st.removed + AllGone(s, st.p, j, qtype, drop);
    } else {
      CutOffExactly(s, st.p, qtype, drop, st.removed);
    }
  }

  /**
   The pass stops early exactly when there is a record to stop at, and then at the first such:
   one of another type behind a record of the queried type with a dropped hint.
   */
  lemma {:induction false} StopsExactly(s: seq<byte>, qtype: uint16, drop: Families)
    requires Rewritten(s, qtype, drop).Some?
    ensures var f, q := RewrittenPass(s, qtype, drop).value, ParsedQuestion(s).value;
            && (f.i < q.answers <==> exists j: nat | j < q.answers :: StopsAt(s, q.end, j, qtype, drop))
            && (f.i < q.answers ==> StopsAt(s, q.end, f.i, qtype, drop))
            && (forall j: nat | j < f.i :: !StopsAt(s, q.end, j, qtype, drop))
  {
    hide CopiedAnswers, AllPatches, AllGone, RecordBehind, OtherType, Hinted, Carries;
    var f, q := RewrittenPass(s, qtype, drop).value, ParsedQuestion(s).value;
    var none: set<nat> := {};
    assert Start(s, q.end).out[12..] == s[12..q.end];
    AsIs(s, 12, q.end);
    PassCarries(s, q.answers, qtype, drop, Start(s, q.end), none);
    assert [] + AllGone(s, q.end, f.i, qtype, drop) == AllGone(s, q.end, f.i, qtype, drop);
    SomethingGone(s, q.end, f.i, qtype, drop);
    assert f.i < q.answers ==> StopsAt(s, q.end, f.i, qtype, drop);
    forall j: nat | j < f.i ensures !StopsAt(s, q.end, j, qtype, drop) {
      GoesOn(s, q.answers, qtype, drop, Start(s, q.end), j);
      SomethingGone(s, q.end, j, qtype, drop);
      assert [] + AllGone(s, q.end, j, qtype, drop) == AllGone(s, q.end, j, qtype, drop);
    }
  }
}
