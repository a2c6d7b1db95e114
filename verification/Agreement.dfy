/**
 The parser that judges responses reads a rewritten one as it should: it accepts it and finds
 the same addresses, less the hints DropAddress removed.
 */
module Agreement {
  import opened Wrappers
  import opened Bytes
  import opened Parser
  import opened Rewriter
  import opened Relocation
  import opened Copies
  import opened Decoder
  import opened Pointers

  function Minus(a: Addresses, drop: Families): Addresses {
    Addresses(if drop.v4 then [] else a.v4, if drop.v6 then [] else a.v6)
  }

  /** The addresses the first n answers from p on keep: the queried type loses its dropped hints. */
  function Remaining(s: seq<byte>, p: nat, n: nat, qtype: uint16, drop: Families): Addresses
    decreases n
  {
    match (n, SkippedNameEnd(s, p), AnswerAddresses(s, p))
    case (0, _, _) => NO_ADDRESS
    case (_, Some(q), Some((end, here))) =>
      (if U16(s, q) == qtype then Minus(here, drop) else here).Then(Remaining(s, end, n - 1, qtype, drop))
    case _ => NO_ADDRESS
  }

  // ----- names

  /** The labels, dots between them. */
  function Dotted(labels: seq<Label>): seq<byte> {
    if labels == [] then [] else labels[0] + if |labels| == 1 then [] else [DOT] + Dotted(labels[1..])
  }

  lemma {:induction false} LabelsRead(s: seq<byte>, p: nat, limit: nat, part: seq<byte>)
    requires NameEnd(s, p).Some? && NamePointer(s, p).None?
    ensures Expanded(s, p, limit).Some?
    ensures var labels := Expanded(s, p, limit).value;
            LabelText(s, p, part) == if labels == [] then [] else Dotted(labels) + [DOT]
    decreases |s| - p
  {
    if s[p] > 0 {
      var next := p + 1 + s[p];
      var first := s[p + 1..next];
      LabelsRead(s, next, limit, first);
      var rest := Expanded(s, next, limit).value;
      assert ([first] + rest)[1..] == rest;
      if rest == [] {
        assert LabelText(s, p, part) == first + [DOT] + [];
      } else {
        assert first + [DOT] + (Dotted(rest) + [DOT]) == first + ([DOT] + Dotted(rest)) + [DOT];
      }
    }
  }

  /** The text the parser makes of an uncompressed name is the name's labels with dots between. */
  lemma {:induction false} QuestionTextIsName(s: seq<byte>, p: nat)
    requires NameEnd(s, p).Some? && NamePointer(s, p).None?
    ensures Name(s, p).Some? && QuestionText(s, p) == Dotted(Name(s, p).value)
  {
    LabelsRead(s, p, p, []);
  }

  lemma {:induction false} HeldNameSkips(s: seq<byte>, p: nat, removed: Removed, o: seq<byte>, p2: nat)
    requires CopiedName(s, p, removed).Copied? && Holds(o, p2, CopiedName(s, p, removed).bytes)
    ensures SkippedNameEnd(o, p2) == Some(p2 + |CopiedName(s, p, removed).bytes|)
    decreases |s| - p
  {
    hide Holds, PutPointer, PointerAt, CopiedName;
    NameHolds(s, p, removed, o, p2);
    if 0 < s[p] < 0x40 {
      HeldNameSkips(s, p + 1 + s[p], removed, o, p2 + 1 + s[p]);
    }
  }

  /** A name the rewriter copies whole inside [lo, hi), the parser skips inside those bytes alone. */
  lemma {:induction false} CopiedNameSkips(s: seq<byte>, lo: nat, hi: nat, p: nat, removed: Removed)
    requires lo <= p && hi <= |s| && CopiedName(s, p, removed).Copied? && CopiedName(s, p, removed).end <= hi
    ensures SkippedNameEnd(s[lo..hi], p - lo) == Some(CopiedName(s, p, removed).end - lo)
    decreases |s| - p
  {
    assert s[lo..hi][p - lo] == s[p];
    if 0 < s[p] < 0x40 {
      CopiedNameSkips(s, lo, hi, p + 1 + s[p], removed);
    }
  }

  // ----- parameters

  lemma JoinMinus(key: uint16, value: seq<byte>, rest: Addresses, drop: Families)
    ensures Minus(ParamAddresses(key, value).Then(rest), drop)
         == if Drops(drop, key) then Minus(rest, drop) else ParamAddresses(key, value).Then(Minus(rest, drop))
  {
  }

  lemma ParamAddressesHead(d: seq<byte>, p: nat, len: nat)
    requires p + 4 <= |d| && len == 4 + U16(d, p + 2) && p + len <= |d| && ParamListAddresses(d, p + len).Some?
    ensures ParamListAddresses(d, p)
         == Some(ParamAddresses(U16(d, p), d[p + 4..p + len]).Then(ParamListAddresses(d, p + len).value))
  {
  }

  /** The parameters from p on, parsed inside s[lo..end], and what is kept of them at p2. */
  ghost predicate SameAddresses(s: seq<byte>, lo: nat, p: nat, end: nat, o: seq<byte>, p2: nat, drop: Families)
    requires lo <= p <= end <= |s| && p2 <= |o|
  {
    match ParamListAddresses(s[lo..end], p - lo)
    case None => false
    case Some(found) => ParamListAddresses(o, p2) == Some(Minus(found, drop))
  }

  lemma {:induction false} ParamsParse(s: seq<byte>, lo: nat, p: nat, end: nat, o: seq<byte>, p2: nat, drop: Families)
    requires lo <= p <= end <= |s| && p2 <= |o| && Aligned(s, p, end, o, p2, |o|, drop)
    ensures SameAddresses(s, lo, p, end, o, p2, drop)
    decreases end - p
  {
    if p < end {
      var len := ParamLength(s, p, end);
      ParamsParse(s, lo, p + len, end, o, if Drops(drop, U16(s, p)) then p2 else p2 + len, drop);
      ParamParses(s, lo, p, end, o, p2, drop, len);
    }
  }

  lemma ParamParses(s: seq<byte>, lo: nat, p: nat, end: nat, o: seq<byte>, p2: nat, drop: Families, len: nat)
    requires lo <= p < end <= |s| && p2 <= |o| && len == ParamLength(s, p, end) > 0
    requires !Drops(drop, U16(s, p)) ==> SameParam(s, p, o, p2, |o|, len)
    requires SameAddresses(s, lo, p + len, end, o, if Drops(drop, U16(s, p)) then p2 else p2 + len, drop)
    ensures SameAddresses(s, lo, p, end, o, p2, drop)
  {
    hide ParamListAddresses, ParamAddresses, Minus;
    var d := s[lo..end];
    ParamInSlice(s, lo, p, end, len);
    ParamAddressesHead(d, p - lo, len);
    JoinMinus(U16(s, p), s[p + 4..p + len], ParamListAddresses(d, p + len - lo).value, drop);
    if !Drops(drop, U16(s, p)) {
      SliceOfSlice(s, p, o, p2, len);
      ParamAddressesHead(o, p2, len);
    }
  }

  lemma ParamInSlice(s: seq<byte>, lo: nat, p: nat, end: nat, len: nat)
    requires lo <= p && p + len <= end <= |s| && 4 <= len
    ensures U16(s[lo..end], p - lo) == U16(s, p) && U16(s[lo..end], p - lo + 2) == U16(s, p + 2)
    ensures s[lo..end][p - lo + 4..p - lo + len] == s[p + 4..p + len]
  {
    U16OfSlice(s, lo, end, p - lo);
    U16OfSlice(s, lo, end, p - lo + 2);
    var d, value := s[lo..end][p - lo + 4..p - lo + len], s[p + 4..p + len];
    forall i | 0 <= i < |value| ensures d[i] == value[i] {
    }
  }

  // ----- records

  lemma SvcbParses(s: seq<byte>, p: nat, end: nat, drop: Families, removed: Removed, k: Kept)
    requires p <= end <= |s| && k == KeptSvcb(s, p, end, drop, removed) && k.Kept?
    ensures |s[p..end]| > 0 && |k.bytes| > 0
    ensures SvcbAddresses(s[p..end]).Some?
    ensures SvcbAddresses(k.bytes) == Some(Minus(SvcbAddresses(s[p..end]).value, drop))
  {
    hide SvcbAddresses, SkippedNameEnd, SameAddresses, KeptParams;
    var o := k.bytes;
    var q := CopiedName(s, p + 2, removed).end;
    var q2 := q - p;
    assert o[0..0 + |k.bytes|] == o;
    SvcbHolds(s, p, end, o, 0, drop, removed, q, q2);
    assert SkippedNameEnd(o, 2) == Some(q2) && SkippedNameEnd(s[p..end], 2) == Some(q2) by {
      HeldNameSkips(s, p + 2, removed, o, 2);
      CopiedNameSkips(s, p, end, p + 2, removed);
    }
    assert SameAddresses(s, p, q, end, o, q2, drop) by {
      HoldsAligned(s, q, end, o, q2, |o|, drop);
      ParamsParse(s, p, q, end, o, q2, drop);
    }
    SvcbJoins(s, p, q, end, o, q2, drop);
  }

  lemma SvcbJoins(s: seq<byte>, p: nat, q: nat, end: nat, o: seq<byte>, q2: nat, drop: Families)
    requires p + 2 <= q <= end <= |s| && q2 <= |o| && 2 <= |o| && q2 == q - p
    requires SkippedNameEnd(o, 2) == Some(q2) && SkippedNameEnd(s[p..end], 2) == Some(q2)
    requires SameAddresses(s, p, q, end, o, q2, drop)
    ensures SvcbAddresses(s[p..end]).Some? && SvcbAddresses(o) == Some(Minus(SvcbAddresses(s[p..end]).value, drop))
  {
    hide SkippedNameEnd, ParamListAddresses, Minus;
  }

  /** What the parser finds in a record of known extent. */
  function RecordAddresses(s: seq<byte>, q: nat, end: nat): Option<(nat, Addresses)>
    requires q + 10 <= end <= |s|
  {
    if U16(s, q + 2) != 1 then None
    else
      match RdataAddresses(U16(s, q), s[q + 10..end])
      case None => None
      case Some(addresses) => Some((end, addresses))
  }

  lemma RecordParses(s: seq<byte>, p: nat, q: nat, end: nat)
    requires SkippedNameEnd(s, p) == Some(q) && q + 10 <= end <= |s| && end == q + 10 + U16(s, q + 8)
    ensures AnswerAddresses(s, p) == RecordAddresses(s, q, end)
  {
  }

  /** The record at p, and where o has its copy. */
  lemma AnswerParses(s: seq<byte>, p: nat, o: seq<byte>, p2: nat, qtype: uint16, drop: Families, removed: Removed,
                     a: Answer, q: nat, q2: nat, end2: nat, k: Kept)
    requires qtype == TYPE_SVCB || qtype == TYPE_HTTPS
    requires a == CopiedAnswer(s, p, qtype, drop, removed) && a.Answer? && Holds(o, p2, a.bytes)
    requires end2 == p2 + |a.bytes|
    requires q == CopiedName(s, p, removed).end && q2 == p2 + q - p && q + 10 <= a.end
    requires k == KeptRdata(s, q, a.end, qtype, drop, removed)
    ensures SkippedNameEnd(s, p) == Some(q) && AnswerAddresses(s, p) == RecordAddresses(s, q, a.end)
    ensures AnswerAddresses(s, p).Some? ==>
              var here := AnswerAddresses(s, p).value.1;
              AnswerAddresses(o, p2) == Some((end2, if U16(s, q) == qtype then Minus(here, drop) else here))
  {
    hide CopiedName, KeptRdata, Minus, RdataAddresses, AnswerAddresses;
    AnswerParts(s, p, qtype, drop, removed);
    AnswerHolds(s, p, o, p2, qtype, drop, removed, q, q2, k);
    assert SkippedNameEnd(s, p) == Some(q) && SkippedNameEnd(o, p2) == Some(q2) by {
      HeldNameSkips(s, p, removed, o, p2);
      CopiedNameSkips(s, 0, |s|, p, removed);
      assert s[0..|s|] == s;
    }
    SameFixed(s, q, o, q2);
    RecordParses(s, p, q, a.end);
    RecordParses(o, p2, q2, end2);
    RdataParses(s, q, a.end, o, q2, end2, qtype, drop, removed, k);
  }

  lemma RdataParses(s: seq<byte>, q: nat, end: nat, o: seq<byte>, q2: nat, end2: nat, qtype: uint16, drop: Families,
          removed: Removed, k: Kept)
    requires qtype == TYPE_SVCB || qtype == TYPE_HTTPS
    requires q + 10 <= end <= |s| && k == KeptRdata(s, q, end, qtype, drop, removed) && k.Kept?
    requires Holds(o, q2 + 10, k.bytes) && end2 == q2 + 10 + |k.bytes|
    requires U16(o, q2) == U16(s, q) && U16(o, q2 + 2) == U16(s, q + 2)
    ensures RecordAddresses(s, q, end).Some? ==>
              var here := RecordAddresses(s, q, end).value.1;
              RecordAddresses(o, q2, end2) == Some((end2, if U16(s, q) == qtype then Minus(here, drop) else here))
  {
    assert o[q2 + 10..end2] == k.bytes;
    if U16(s, q) == qtype {
      ServiceParses(s, q, end, qtype, drop, removed, k);
    }
  }

  lemma ServiceParses(s: seq<byte>, q: nat, end: nat, qtype: uint16, drop: Families, removed: Removed, k: Kept)
    requires qtype == TYPE_SVCB || qtype == TYPE_HTTPS
    requires q + 10 <= end <= |s| && k == KeptSvcb(s, q + 10, end, drop, removed) && k.Kept?
    ensures RdataAddresses(qtype, s[q + 10..end]).Some?
    ensures RdataAddresses(qtype, k.bytes) == Some(Minus(RdataAddresses(qtype, s[q + 10..end]).value, drop))
  {
    hide KeptSvcb, SvcbAddresses, Minus;
    SvcbParses(s, q + 10, end, drop, removed, k);
  }

  ghost predicate Agrees(s: seq<byte>, p: nat, o: seq<byte>, p2: nat, m: nat, qtype: uint16, drop: Families) {
    match AnswersAddresses(o, p2, m)
    case None => false
    case Some(found) => found == Remaining(s, p, m, qtype, drop)
  }

  lemma OneMoreAgrees(s: seq<byte>, p: nat, q: nat, end: nat, o: seq<byte>, p2: nat, end2: nat, m: nat, qtype: uint16,
          drop: Families)
    requires m > 0 && SkippedNameEnd(s, p) == Some(q) && q + 2 <= |s| && AnswerAddresses(s, p).Some?
    requires AnswerAddresses(s, p).value.0 == end
    requires var here := AnswerAddresses(s, p).value.1;
             AnswerAddresses(o, p2) == Some((end2, if U16(s, q) == qtype then Minus(here, drop) else here))
    requires Agrees(s, end, o, end2, m - 1, qtype, drop)
    ensures Agrees(s, p, o, p2, m, qtype, drop)
  {
  }

  lemma {:induction false} PassParses(s: seq<byte>, o: seq<byte>, n: nat, qtype: uint16, drop: Families, st: Pass,
          f: Pass, m: nat)
    requires qtype == TYPE_SVCB || qtype == TYPE_HTTPS
    requires st.i <= n && InStep(st) && CopiedAnswers(s, n, qtype, drop, st) == Some(f) && SameBody(o, f.out)
    requires m == f.i - st.i
    requires AnswersAddresses(s, st.p, n - st.i).Some?
    ensures Agrees(s, st.p, o, |st.out|, m, qtype, drop)
    decreases m
  {
    if m > 0 {
      var next, q := NextParses(s, o, n, qtype, drop, st, f, m);
      PassParses(s, o, n, qtype, drop, next, f, m - 1);
      OneMoreAgrees(s, st.p, q, next.p, o, |st.out|, |next.out|, m, qtype, drop);
    }
  }

  lemma NextParses(s: seq<byte>, o: seq<byte>, n: nat, qtype: uint16, drop: Families, st: Pass, f: Pass, m: nat)
    returns (next: Pass, q: nat)
    requires qtype == TYPE_SVCB || qtype == TYPE_HTTPS
    requires st.i < n && InStep(st) && CopiedAnswers(s, n, qtype, drop, st) == Some(f) && SameBody(o, f.out)
    requires 0 < m == f.i - st.i
    requires AnswersAddresses(s, st.p, n - st.i).Some?
    ensures next.i == st.i + 1 && InStep(next) && CopiedAnswers(s, n, qtype, drop, next) == Some(f)
    ensures AnswersAddresses(s, next.p, n - next.i).Some?
    ensures SkippedNameEnd(s, st.p) == Some(q) && q + 2 <= |s|
    ensures AnswerAddresses(s, st.p).Some? && AnswerAddresses(s, st.p).value.0 == next.p
    ensures var here := AnswerAddresses(s, st.p).value.1;
            AnswerAddresses(o, |st.out|) == Some((|next.out|, if U16(s, q) == qtype then Minus(here, drop) else here))
  {
    hide CopiedName, CopiedAnswer, KeptRdata, AnswerAddresses, Minus;
    AnswerParts(s, st.p, qtype, drop, st.removed);
    var a := CopiedAnswer(s, st.p, qtype, drop, st.removed);
    next, q := Advance(st, a), CopiedName(s, st.p, st.removed).end;
    AdvanceInStep(s, qtype, drop, st);
    AppendedHolds(o, f.out, st.out, a.bytes);
    AnswerParses(s, st.p, o, |st.out|, qtype, drop, st.removed, a, q, |st.out| + q - st.p, |next.out|,
                 KeptRdata(s, q, a.end, qtype, drop, st.removed));
  }

  /**
   If ParseResponseA accepts a response and DropAddress rewrites it, ParseResponseA accepts the
   result, and finds exactly the addresses of the answers kept, less the dropped hints.
   */
  lemma {:induction false} ParserAgreesWithRewriter(s: seq<byte>, qtype: uint16, drop: Families)
    requires qtype == TYPE_SVCB || qtype == TYPE_HTTPS
    requires ParsedResponse(s).Some? && Rewritten(s, qtype, drop).Some?
    ensures var q := ParsedResponse(s).value.question;
            var kept := RewrittenPass(s, qtype, drop).value.i;
            ParsedResponse(Rewritten(s, qtype, drop).value)
            == Some(Response(q.(answers := kept), Remaining(s, q.end, kept, qtype, drop)))
  {
    var q := ParsedQuestion(s).value;
    var o := Rewritten(s, qtype, drop).value;
    var f := RewrittenPass(s, qtype, drop).value;
    RewriteKeepsQuestion(s, qtype, drop);
    QuestionSurvives(s, o);
    StartInStep(s, q.end);
    PassParses(s, o, q.answers, qtype, drop, Start(s, q.end), f, f.i);
  }

  /** A reply DropAddress lets through is not empty, and keeps its ID. */
  lemma {:induction false} DropKeepsId(s: seq<byte>, qtype: uint16, drop: Families)
    requires s != [] && Dropped(s, qtype, drop).Some?
    ensures var o := Dropped(s, qtype, drop).value;
            o != [] && |o| <= |s| && (|s| >= 2 <==> |o| >= 2) && (|s| >= 2 ==> U16(o, 0) == U16(s, 0))
  {
    var o := Dropped(s, qtype, drop).value;
    if o != s {
      if Emptied(s) == Some(o) {
        CountsKeepBody(s[..ParsedQuestion(s).value.end], 0);
      } else {
        RewriteKeepsQuestion(s, qtype, drop);
      }
      assert o[..6] == s[..6] && o[0] == o[..6][0] && o[1] == o[..6][1] && s[0] == s[..6][0] && s[1] == s[..6][1];
    }
  }
}
