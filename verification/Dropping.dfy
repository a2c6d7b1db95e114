/**
 What DropAddress makes of a response, said through the separate decoder and the types and keys of
 RFC 1035, RFC 3596 and RFC 9460: which responses lose which addresses, which stay, and which fail.
 */
module Dropping {
  import opened Wrappers
  import opened Bytes
  import opened Parser
  import opened Rewriter
  import opened Relocation
  import opened Pointers
  import opened Decoder
  import opened Decodable
  import opened Hints
  import Agreement
  import Content
  import Meaning

  // ----- which rewrites succeed

  /** The parameters of the record at p, if it is of type qtype: its names and parameters all fit. */
  function ServiceParams(s: seq<byte>, q: nat, end: nat): Option<seq<Param>>
    requires q + 10 <= end <= |s|
  {
    match NameEnd(s, q + 12)
    case None => None
    case Some(r) => if r > end then None else Params(s, r, end)
  }

  predicate AnyUnwanted(params: seq<Param>, drop: Families) {
    exists i :: 0 <= i < |params| && Unwanted(drop, params[i].key)
  }

  /**
   n records from p on are well formed, those of type qtype with all their parameters, as far as
   one of another type behind a dropped hint.
   */
  predicate Rewritable(s: seq<byte>, p: nat, n: nat, qtype: uint16, drop: Families, gone: bool)
    decreases n
  {
    n == 0 || (gone && Content.OtherType(s, p, qtype)) ||
    match RecordEnd(s, p)
    case None => false
    case Some((q, end)) =>
      if U16(s, q) != qtype then Rewritable(s, end, n - 1, qtype, drop, gone)
      else
        match ServiceParams(s, q, end)
        case None => false
        case Some(params) => Rewritable(s, end, n - 1, qtype, drop, gone || AnyUnwanted(params, drop))
  }

  lemma {:induction false} ParamsKept(s: seq<byte>, p: nat, end: nat, drop: Families)
    requires p <= end <= |s|
    ensures KeptParams(s, p, end, drop).Kept? <==> Params(s, p, end).Some?
    ensures KeptParams(s, p, end, drop).Kept? ==>
              (KeptParams(s, p, end, drop).removed != [] <==> AnyUnwanted(Params(s, p, end).value, drop))
    decreases end - p
  {
    if p < end && ParamLength(s, p, end) > 0 {
      var next := p + ParamLength(s, p, end);
      ParamsKept(s, next, end, drop);
      if Params(s, next, end).Some? {
        UnwantedHead(Param(U16(s, p), s[p + 4..next]), Params(s, next, end).value, drop);
      }
    }
  }

  lemma UnwantedHead(first: Param, rest: seq<Param>, drop: Families)
    ensures AnyUnwanted([first] + rest, drop) <==> Unwanted(drop, first.key) || AnyUnwanted(rest, drop)
  {
    var all := [first] + rest;
    if Unwanted(drop, first.key) {
      assert Unwanted(drop, all[0].key);
    }
    forall i | 0 <= i < |rest| && Unwanted(drop, rest[i].key) ensures AnyUnwanted(all, drop) {
      assert Unwanted(drop, all[i + 1].key);
    }
    forall i | 0 < i < |all| && Unwanted(drop, all[i].key) ensures AnyUnwanted(rest, drop) {
      assert Unwanted(drop, rest[i - 1].key);
    }
  }

  lemma ServiceKept(s: seq<byte>, q: nat, end: nat, drop: Families, removed: Removed)
    requires q + 10 <= end <= |s|
    ensures KeptSvcb(s, q + 10, end, drop, removed).Kept? <==> ServiceParams(s, q, end).Some?
    ensures KeptSvcb(s, q + 10, end, drop, removed).Kept? ==>
              (KeptSvcb(s, q + 10, end, drop, removed).removed != [] <==> AnyUnwanted(ServiceParams(s, q, end).value, drop))
  {
    hide CopiedName, NameEnd, KeptParams, Params, AnyUnwanted;
    var target := CopiedName(s, q + 12, removed);
    if target.Copied? {
      CopyEndsName(s, q + 12, removed);
    } else if NameEnd(s, q + 12).Some? {
      EndedNameCopies(s, q + 12, removed);
    }
    if target.Copied? && target.end <= end {
      ParamsKept(s, target.end, end, drop);
    }
  }

  /** A record that is not cut off is copied exactly when it is well formed. */
  lemma RecordCopied(s: seq<byte>, p: nat, qtype: uint16, drop: Families, removed: Removed)
    requires !CopiedAnswer(s, p, qtype, drop, removed).CutOff?
    ensures var a := CopiedAnswer(s, p, qtype, drop, removed);
            match RecordEnd(s, p)
            case None => a.Broken?
            case Some((q, end)) =>
              var params := ServiceParams(s, q, end);
              && (a.Answer? <==> U16(s, q) == qtype ==> params.Some?)
              && (a.Answer? ==> a.end == end && (a.removed != [] <==> U16(s, q) == qtype && AnyUnwanted(params.value, drop)))
  {
    hide CopiedName, NameEnd, KeptSvcb, ServiceParams, AnyUnwanted;
    var owner := CopiedName(s, p, removed);
    if owner.Copied? {
      CopyEndsName(s, p, removed);
    } else if NameEnd(s, p).Some? {
      EndedNameCopies(s, p, removed);
    }
    if RecordEnd(s, p).Some? {
      var (q, end) := RecordEnd(s, p).value;
      ServiceKept(s, q, end, drop, removed);
    }
  }

  lemma {:induction false} PassCopies(s: seq<byte>, n: nat, qtype: uint16, drop: Families, st: Pass)
    requires st.i <= n
    ensures CopiedAnswers(s, n, qtype, drop, st).Some? <==> Rewritable(s, st.p, n - st.i, qtype, drop, st.removed != [])
    decreases n - st.i
  {
    hide CopiedAnswer, RecordEnd, ServiceParams, AnyUnwanted;
    if st.i < n {
      Content.CutOffExactly(s, st.p, qtype, drop, st.removed);
      var a := CopiedAnswer(s, st.p, qtype, drop, st.removed);
      if !a.CutOff? {
        RecordCopied(s, st.p, qtype, drop, st.removed);
        if a.Answer? {
          PassCopies(s, n, qtype, drop, Advance(st, a));
        }
      }
    }
  }

  /** A rewrite succeeds exactly on a question and answers that are well formed as far as it copies them. */
  lemma {:induction false} RewritesExactly(s: seq<byte>, qtype: uint16, drop: Families)
    ensures Rewritten(s, qtype, drop).Some? <==>
            ParsedQuestion(s).Some? &&
            Rewritable(s, ParsedQuestion(s).value.end, ParsedQuestion(s).value.answers, qtype, drop, false)
  {
    hide CopiedAnswers, Rewritable;
    if ParsedQuestion(s).Some? {
      var q := ParsedQuestion(s).value;
      PassCopies(s, q.answers, qtype, drop, Start(s, q.end));
    }
  }

  // ----- what becomes of a response

  /** Nothing but the header, its counts cleared, and the question, from which no address is read. */
  ghost predicate QuestionOnly(s: seq<byte>, o: Option<seq<byte>>) {
    && (o.Some? <==> ParsedQuestion(s).Some?)
    && (o.Some? ==>
          var q := ParsedQuestion(s).value;
          && o.value == s[..6] + [0, 0, 0, 0, 0, 0] + s[12..q.end]
          && ParsedResponse(o.value) == Some(Response(q.(answers := 0), Addresses([], [])))
          && (NameEnd(s, 12).Some? && NamePointer(s, 12).None? ==>
                Decoded(s, 0, q.qtype).Some? && Decoded(o.value, 0, q.qtype) == Decoded(s, 0, q.qtype)))
  }

  lemma EmptiedIsQuestionOnly(s: seq<byte>)
    ensures QuestionOnly(s, Emptied(s))
  {
    hide QuestionNameEnd, NameEnd, Decoded, NamePointer;
    if ParsedQuestion(s).Some? {
      var q, o := ParsedQuestion(s).value, Emptied(s).value;
      assert s[..q.end][..6] == s[..6] && s[..q.end][12..] == s[12..q.end] && PutU16(0) + [0, 0, 0, 0] == [0, 0, 0, 0, 0, 0];
      assert o == s[..6] + (PutU16(0) + [0, 0, 0, 0]) + s[12..q.end];
      assert U16(o, 6) == 0;
      assert o[12..q.end] == s[12..q.end];
      QuestionSurvives(s, o);
      if NameEnd(s, 12).Some? && NamePointer(s, 12).None? {
        Meaning.EmptyKeepsQuestion(s, q.qtype);
      }
    }
  }

  /** The number of answers the header of o announces. */
  function Announced(o: seq<byte>): nat
    requires |o| >= 12
  {
    256 * o[6] as nat + o[7] as nat
  }

  /**
   The leading answers, less the hints of the dropped families: as the decoder reads them where names
   point back, and as the forwarder's parser finds their addresses.
   */
  ghost predicate HintsGone(s: seq<byte>, qtype: uint16, drop: Families, o: Option<seq<byte>>) {
    && (o.Some? <==> ParsedQuestion(s).Some? &&
                     Rewritable(s, ParsedQuestion(s).value.end, ParsedQuestion(s).value.answers, qtype, drop, false))
    && (o.Some? ==> |o.value| >= 12 && HintsGoneFrom(s, qtype, drop, o.value, Announced(o.value)))
  }

  ghost predicate HintsGoneFrom(s: seq<byte>, qtype: uint16, drop: Families, o: seq<byte>, kept: nat) {
    && ParsedQuestion(s).Some?
    && var q := ParsedQuestion(s).value;
       && StopsRight(s, q.end, q.answers, qtype, drop, kept)
       && (!drop.v4 && !drop.v6 ==> AnswersOnly(s, q, o, kept))
       && (ParsedResponse(s).Some? ==>
             kept < 0x1_0000 &&
             ParsedResponse(o) == Some(Response(q.(answers := kept), Agreement.Remaining(s, q.end, kept, qtype, drop))))
       && (WellPointed(s, kept, qtype) && CnamesFill(s, NameEnd(s, 12).value + 4, kept, qtype) ==>
             && Decoded(s, kept, qtype).Some?
             && var m := Decoded(s, kept, qtype).value;
                Decoded(o, kept, qtype) == Some(m.(answers := AllWithout(m.answers, drop))))
  }

  /** All n answers are kept, or those before the first of another type behind a dropped hint. */
  ghost predicate StopsRight(s: seq<byte>, p: nat, n: nat, qtype: uint16, drop: Families, kept: nat) {
    && kept <= n && (kept < n ==> Content.StopsAt(s, p, kept, qtype, drop))
    && forall j: nat | j < kept :: !Content.StopsAt(s, p, j, qtype, drop)
  }

  /** The packet up to the end of its answers, all of them, with no other record announced. */
  ghost predicate AnswersOnly(s: seq<byte>, q: Question, o: seq<byte>, kept: nat) {
    && kept == q.answers
    && match Content.RecordBehind(s, q.end, kept)
       case None => false
       case Some(end) => 12 <= end <= |s| && o == s[..8] + [0, 0, 0, 0] + s[12..end]
  }

  lemma {:induction false} PassAsIs(s: seq<byte>, n: nat, qtype: uint16, st: Pass)
    requires st.i <= n && st.removed == [] && st.p <= |s| && st.out == s[..st.p]
    requires CopiedAnswers(s, n, qtype, Families(false, false), st).Some?
    ensures var f := CopiedAnswers(s, n, qtype, Families(false, false), st).value;
            && f.i == n && f.p <= |s| && f.out == s[..f.p] && Content.RecordBehind(s, st.p, n - st.i) == Some(f.p)
    decreases n - st.i
  {
    hide CopiedAnswer, RecordEnd, ServiceParams;
    if st.i < n {
      var none := Families(false, false);
      Content.CutOffExactly(s, st.p, qtype, none, []);
      RecordCopied(s, st.p, qtype, none, []);
      var a := CopiedAnswer(s, st.p, qtype, none, []);
      Meaning.AnswerCopiedAsIs(s, st.p, qtype, none);
      PassAsIs(s, n, qtype, Advance(st, a));
    }
  }

  lemma NothingDropped(s: seq<byte>, qtype: uint16, o: seq<byte>, kept: nat)
    requires Rewritten(s, qtype, Families(false, false)) == Some(o)
    requires kept == RewrittenPass(s, qtype, Families(false, false)).value.i
    ensures AnswersOnly(s, ParsedQuestion(s).value, o, kept)
  {
    hide CopiedAnswers, Content.RecordBehind, QuestionNameEnd;
    var q := ParsedQuestion(s).value;
    PassAsIs(s, q.answers, qtype, Start(s, q.end));
    var f := RewrittenPass(s, qtype, Families(false, false)).value;
    PutU16RoundTrip(s, 6);
    assert s[..f.p][..6] == s[..6] && s[..f.p][12..] == s[12..f.p] && s[..6] + s[6..8] == s[..8];
    assert o == s[..6] + s[6..8] + [0, 0, 0, 0] + s[12..f.p];
  }

  lemma KeptIsHintsGone(s: seq<byte>, qtype: uint16, drop: Families, o: seq<byte>, kept: nat)
    requires qtype == 64 || qtype == 65
    requires Rewritten(s, qtype, drop) == Some(o) && kept == RewrittenPass(s, qtype, drop).value.i
    ensures HintsGoneFrom(s, qtype, drop, o, kept)
  {
    hide CopiedAnswers, AnswersOnly, Content.StopsAt, PointsBack, CnamesFill, Decoded,
         ParsedResponse, AllWithout, Agreement.Remaining, QuestionNameEnd;
    assert StopsRight(s, ParsedQuestion(s).value.end, ParsedQuestion(s).value.answers, qtype, drop, kept) by {
      Content.StopsExactly(s, qtype, drop);
    }
    if !drop.v4 && !drop.v6 {
      NothingDropped(s, qtype, o, kept);
    }
    if ParsedResponse(s).Some? {
      QuestionOfResponse(s);
      Agreement.ParserAgreesWithRewriter(s, qtype, drop);
    }
    if WellPointed(s, kept, qtype) && CnamesFill(s, NameEnd(s, 12).value + 4, kept, qtype) {
      Meaning.RewriteKeepsMeaning(s, qtype, drop);
    }
  }

  lemma QuestionOfResponse(s: seq<byte>)
    requires ParsedResponse(s).Some?
    ensures ParsedQuestion(s) == Some(ParsedResponse(s).value.question)
  {
  }

  lemma RewrittenIsHintsGone(s: seq<byte>, qtype: uint16, drop: Families)
    requires qtype == 64 || qtype == 65
    ensures HintsGone(s, qtype, drop, Rewritten(s, qtype, drop))
  {
    RewritesExactly(s, qtype, drop);
    if Rewritten(s, qtype, drop).Some? {
      var o, kept := Rewritten(s, qtype, drop).value, RewrittenPass(s, qtype, drop).value.i;
      hide Rewritable, HintsGoneFrom, Rewritten, RewrittenPass, ParsedQuestion, InStep, SameBody;
      RewriteKeepsQuestion(s, qtype, drop);
      assert |o| >= 12 && Announced(o) == kept;
      KeptIsHintsGone(s, qtype, drop, o, kept);
    }
  }

  /** What the forwarder should make of s, an answer to a query of type qtype; nothing when it cannot. */
  ghost predicate Becomes(s: seq<byte>, qtype: uint16, drop: Families, o: Option<seq<byte>>) {
    if (qtype == 1 && drop.v4) || (qtype == 28 && drop.v6) then QuestionOnly(s, o)
    else if qtype == 64 || qtype == 65 then HintsGone(s, qtype, drop, o)
    else o == Some(s)
  }

  /** DropAddress does so, for every packet, query type and choice of families. */
  lemma {:induction false} DroppedBecomes(s: seq<byte>, qtype: uint16, drop: Families)
    ensures Becomes(s, qtype, drop, Dropped(s, qtype, drop))
  {
    hide QuestionOnly, HintsGone, Emptied, Rewritten;
    EmptiedIsQuestionOnly(s);
    if qtype == 64 || qtype == 65 {
      RewrittenIsHintsGone(s, qtype, drop);
    }
  }
}
