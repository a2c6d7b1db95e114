/** Which rewritten responses decode: all whose names point back, but for a CNAME that does not fill its RDATA. */
module Decodable {
  import opened Wrappers
  import opened Bytes
  import opened Parser
  import opened Rewriter
  import opened Relocation
  import opened Pointers
  import opened Decoder
  import opened Hints

  /** Every place a later name may point to lies before p and reads as a name. */
  ghost predicate Resolves(s: seq<byte>, known: set<nat>, p: nat) {
    forall x <- known :: x < p && Name(s, x).Some?
  }

  lemma {:induction false} Expands(s: seq<byte>, p: nat, limit: nat, known: set<nat>)
    requires NameEnd(s, p).Some? && PointsInto(s, p, known) && Resolves(s, known, limit)
    ensures Expanded(s, p, limit).Some?
    decreases |s| - p
  {
    hide PointerAt;
    if s[p] >= 0xC0 {
      assert Name(s, PointerAt(s, p)).Some?;
    } else if s[p] > 0 {
      Expands(s, p + 1 + s[p], limit, known);
    }
  }

  lemma {:induction false} StartsInName(s: seq<byte>, p: nat)
    requires NameEnd(s, p).Some?
    ensures p in NameStarts(s, p)
    ensures forall x <- NameStarts(s, p) :: p <= x < NameEnd(s, p).value
    decreases |s| - p
  {
    if 0 < s[p] < 0x40 {
      StartsInName(s, p + 1 + s[p]);
    }
  }

  /** From every label of a name on, the rest is a name. */
  lemma {:induction false} NameResolves(s: seq<byte>, p: nat, known: set<nat>)
    requires NameEnd(s, p).Some? && PointsInto(s, p, known) && Resolves(s, known, p)
    ensures Resolves(s, known + NameStarts(s, p), NameEnd(s, p).value)
    decreases |s| - p
  {
    Expands(s, p, p, known);
    if 0 < s[p] < 0x40 {
      NameResolves(s, p + 1 + s[p], known);
    }
  }

  lemma ResolvesLater(s: seq<byte>, known: set<nat>, p: nat, q: nat)
    requires Resolves(s, known, p) && p <= q
    ensures Resolves(s, known, q)
  {
  }

  lemma InsideResolves(s: seq<byte>, lo: nat, hi: nat, known: set<nat>)
    requires Resolves(s, known, lo)
    ensures Resolves(s, known + NamesInside(s, lo, hi, known), if lo < hi then hi else lo)
  {
    forall x | x in NamesInside(s, lo, hi, known) ensures x < hi && Name(s, x).Some? {
      Expands(s, x, x, known);
    }
  }

  lemma {:induction false} KeptParamsParse(s: seq<byte>, p: nat, end: nat, drop: Families)
    requires p <= end <= |s| && KeptParams(s, p, end, drop).Kept?
    ensures Params(s, p, end).Some?
    decreases end - p
  {
    if p < end {
      KeptParamsParse(s, p + ParamLength(s, p, end), end, drop);
    }
  }

  /** A record of another type that is a CNAME has nothing but its name in its RDATA. */
  predicate CnameFills(s: seq<byte>, q: nat, end: nat, qtype: uint16)
    requires q + 10 <= end <= |s|
  {
    U16(s, q) == 5 != qtype ==> NameEnd(s, q + 10) == Some(end)
  }

  predicate CnamesFill(s: seq<byte>, p: nat, n: nat, qtype: uint16)
    decreases n
  {
    match (n, RecordEnd(s, p))
    case (0, _) => true
    case (_, None) => false
    case (_, Some((q, end))) => CnameFills(s, q, end, qtype) && CnamesFill(s, end, n - 1, qtype)
  }

  lemma ServiceDecodes(s: seq<byte>, p: nat, end: nat, drop: Families, removed: Removed, known: set<nat>)
    requires p <= end <= |s| && KeptSvcb(s, p, end, drop, removed).Kept?
    requires PointsInto(s, p + 2, known) && Resolves(s, known, p)
    ensures ServiceRdata(s, p, end).Some?
    ensures Resolves(s, known + NameStarts(s, p + 2), end)
  {
    hide CopiedName, KeptParams, Params, PointsInto;
    var target := CopiedName(s, p + 2, removed);
    CopyEndsName(s, p + 2, removed);
    Expands(s, p + 2, p + 2, known);
    NameResolves(s, p + 2, known);
    KeptParamsParse(s, target.end, end, drop);
  }

  /** A copied record decodes, but for that one case, and leaves only places that resolve. */
  lemma RecordDecodes(s: seq<byte>, p: nat, qtype: uint16, drop: Families, removed: Removed, known: set<nat>, q: nat,
                      end: nat)
    requires CopiedAnswer(s, p, qtype, drop, removed).Answer? && Resolves(s, known, p)
    requires q == CopiedName(s, p, removed).end && end == CopiedAnswer(s, p, qtype, drop, removed).end && q + 10 <= end
    requires RecordPointsBack(s, p, q, end, qtype, known)
    ensures RecordAt(s, p, q, end, qtype).Some? <==> CnameFills(s, q, end, qtype)
    ensures Resolves(s, KnownAfter(s, p, q, end, qtype, known), end)
  {
    hide CopiedName, CopiedAnswer, KeptSvcb, NameStarts, PointsInto, ServiceRdata, Resolves;
    var known1 := known + NameStarts(s, p);
    AnswerParts(s, p, qtype, drop, removed);
    CopyEndsName(s, p, removed);
    Expands(s, p, p, known);
    NameResolves(s, p, known);
    ResolvesLater(s, known1, q, q + 10);
    if U16(s, q) == qtype {
      ServiceDecodes(s, q + 10, end, drop, removed, known1);
    } else {
      InsideResolves(s, q + 10, end, known1);
      if U16(s, q) == TYPE_CNAME && NameEnd(s, q + 10) == Some(end) {
        Expands(s, q + 10, q + 10, known1);
      }
    }
  }

  lemma {:induction false} PassDecodes(s: seq<byte>, n: nat, qtype: uint16, drop: Families, st: Pass, known: set<nat>,
                                       m: nat)
    requires st.i <= n && CopiedAnswers(s, n, qtype, drop, st).Some?
    requires m == CopiedAnswers(s, n, qtype, drop, st).value.i - st.i
    requires PointsBack(s, st.p, m, qtype, known) && Resolves(s, known, st.p)
    ensures Records(s, st.p, m, qtype).Some? <==> CnamesFill(s, st.p, m, qtype)
    decreases m
  {
    hide CopiedAnswer, CopiedName, RecordEnd, RecordAt, KnownAfter, Resolves;
    if m > 0 {
      var a := CopiedAnswer(s, st.p, qtype, drop, st.removed);
      AnswerParts(s, st.p, qtype, drop, st.removed);
      var q := CopiedName(s, st.p, st.removed).end;
      FirstRecord(s, st.p, qtype, drop, st.removed, q);
      RecordDecodes(s, st.p, qtype, drop, st.removed, known, q, a.end);
      PassDecodes(s, n, qtype, drop, Advance(st, a), KnownAfter(s, st.p, q, a.end, qtype, known), m - 1);
    }
  }

  lemma {:induction false} QuestionNameAgrees(s: seq<byte>, p: nat)
    requires NameEnd(s, p).Some? && NamePointer(s, p).None?
    ensures QuestionNameEnd(s, p) == NameEnd(s, p)
    decreases |s| - p
  {
    if 0 < s[p] < 0x40 {
      QuestionNameAgrees(s, p + 1 + s[p]);
    }
  }

  /**
   The answers a rewrite keeps of a response whose names point back decode, unless one of another
   type is a CNAME whose name does not end where its RDATA does.
   */
  lemma {:induction false} DecodesExactly(s: seq<byte>, qtype: uint16, drop: Families)
    requires Rewritten(s, qtype, drop).Some?
    requires WellPointed(s, RewrittenPass(s, qtype, drop).value.i, qtype)
    ensures var kept := RewrittenPass(s, qtype, drop).value.i;
            Decoded(s, kept, qtype).Some? <==> CnamesFill(s, NameEnd(s, 12).value + 4, kept, qtype)
  {
    hide CopiedAnswers, CnamesFill, Records, NameStarts, NamePointer;
    var none: set<nat> := {};
    var q := ParsedQuestion(s).value;
    QuestionNameAgrees(s, 12);
    Expands(s, 12, 12, none);
    NameResolves(s, 12, none);
    assert none + NameStarts(s, 12) == NameStarts(s, 12);
    ResolvesLater(s, NameStarts(s, 12), NameEnd(s, 12).value, q.end);
    PassDecodes(s, q.answers, qtype, drop, Start(s, q.end), NameStarts(s, 12), RewrittenPass(s, qtype, drop).value.i);
  }
}
