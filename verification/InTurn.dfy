/** When two rewrites in a row write what one writes, read off the packet they start from. */
module InTurn {
  import opened Bytes
  import opened Parser
  import opened Rewriter
  import opened Relocation
  import opened Copies
  import opened Hints
  import opened RewriteTwice

  /** The ranges a second rewrite deletes from the record at p, when the first has brought it to p2. */
  function GoneAfter(s: seq<byte>, p: nat, p2: nat, qtype: uint16, d1: Families, d2: Families): Removed {
    match ParamsOf(s, p, qtype)
    case None => []
    case Some(params) => Gone(Left(LayoutOf(s, params.0, params.1), d1), p2 + params.0 - p, d2)
  }

  /** The owner name of the record at p, and a TargetName in it. */
  predicate AnswerComposes(s: seq<byte>, p: nat, qtype: uint16, first: Removed, second: Removed, both: Removed) {
    && NameComposes(s, p, first, second, both)
    && (CopiedName(s, p, first).Copied? ==>
          var q := CopiedName(s, p, first).end;
          q + 10 <= |s| && U16(s, q) == qtype ==> NameComposes(s, q + 10 + 2, first, second, both))
  }

  /**
   The same for the records that both passes go on to copy; second and both are what the second
   rewrite, and the one that drops all, have removed so far.
   */
  predicate PointersCompose(s: seq<byte>, n: nat, qtype: uint16, d1: Families, d2: Families, st1: Pass,
                            second: Removed, both: Removed)
    requires st1.i <= n
    decreases n - st1.i
  {
    match if st1.i == n then CutOff else CopiedAnswer(s, st1.p, qtype, d1, st1.removed)
    case Answer(end, bytes, gone) =>
      CopiedAnswer(s, st1.p, qtype, Both(d1, d2), both).CutOff? ||
      (&& AnswerComposes(s, st1.p, qtype, st1.removed, second, both)
       && PointersCompose(s, n, qtype, d1, d2, Advance(st1, Answer(end, bytes, gone)),
                          second + GoneAfter(s, st1.p, |st1.out|, qtype, d1, d2),
                          both + GoneAt(s, st1.p, qtype, Both(d1, d2))))
    case _ => true
  }

  predicate InTurnIsAtOnce(s: seq<byte>, qtype: uint16, d1: Families, d2: Families) {
    match ParsedQuestion(s)
    case None => true
    case Some(q) => PointersCompose(s, q.answers, qtype, d1, d2, Start(s, q.end), [], [])
  }

  // ----- what the second rewrite removes from a record

  /** The layout of a record's parameters in the output of the first rewrite. */
  lemma LayoutCarried(s: seq<byte>, p: nat, o: seq<byte>, p2: nat, qtype: uint16, d1: Families, first: Removed)
    requires CopiedAnswer(s, p, qtype, d1, first).Answer? && Holds(o, p2, CopiedAnswer(s, p, qtype, d1, first).bytes)
    ensures ParamsOf(o, p2, qtype).Some? <==> ParamsOf(s, p, qtype).Some?
    ensures ParamsOf(s, p, qtype).Some? ==>
              var (r, end), (r2, end2) := ParamsOf(s, p, qtype).value, ParamsOf(o, p2, qtype).value;
              r2 == p2 + r - p && LayoutOf(o, r2, end2) == Left(LayoutOf(s, r, end), d1)
  {
    hide CopiedAnswer, CopiedName, LayoutOf, KeptParams, KeptSvcb, Left, Composes, NameComposes, Holds, ParamsOf;
    AnswerParts(s, p, qtype, d1, first);
    var q, a1 := CopiedName(s, p, first).end, CopiedAnswer(s, p, qtype, d1, first);
    var q2 := p2 + q - p;
    var k1 := KeptRdata(s, q, a1.end, qtype, d1, first);
    AnswerHolds(s, p, o, p2, qtype, d1, first, q, q2, k1);
    ParamsThere(s, p, qtype, first, q);
    NameTwice(s, p, o, p2, first, [], []);
    ParamsThere(o, p2, qtype, [], q2);
    if U16(s, q) == qtype {
      SvcbLayout(s, q + 10, a1.end, o, q2 + 10, d1, first);
    }
  }

  lemma SvcbLayout(s: seq<byte>, p: nat, end: nat, o: seq<byte>, p2: nat, d1: Families, first: Removed)
    requires p <= end <= |s| && KeptSvcb(s, p, end, d1, first).Kept?
    requires Holds(o, p2, KeptSvcb(s, p, end, d1, first).bytes)
    ensures var target, target2 := CopiedName(s, p + 2, first), CopiedName(o, p2 + 2, []);
            var end2 := p2 + |KeptSvcb(s, p, end, d1, first).bytes|;
            && target.Copied? && target.end <= end && target2.Copied? && target2.end == p2 + target.end - p
            && target2.end <= end2 <= |o|
            && LayoutOf(o, target2.end, end2) == Left(LayoutOf(s, target.end, end), d1)
  {
    hide CopiedName, LayoutOf, KeptParams, Left, NameComposes;
    var r := CopiedName(s, p + 2, first).end;
    var r2, end2 := p2 + r - p, p2 + |KeptSvcb(s, p, end, d1, first).bytes|;
    SvcbHolds(s, p, end, o, p2, d1, first, r, r2);
    NameTwice(s, p + 2, o, p2 + 2, first, [], []);
    HoldsAligned(s, r, end, o, r2, end2, d1);
    AlignedLayout(s, r, end, o, r2, end2, d1);
  }

  lemma RemovedAfter(s: seq<byte>, p: nat, o: seq<byte>, p2: nat, qtype: uint16, d1: Families, d2: Families,
                     first: Removed, second: Removed)
    requires CopiedAnswer(s, p, qtype, d1, first).Answer? && Holds(o, p2, CopiedAnswer(s, p, qtype, d1, first).bytes)
    requires CopiedAnswer(o, p2, qtype, d2, second).Answer?
    ensures CopiedAnswer(o, p2, qtype, d2, second).removed == GoneAfter(s, p, p2, qtype, d1, d2)
  {
    hide CopiedAnswer, ParamsOf, LayoutOf, Left, Gone, Holds;
    RemovedFromRecord(o, p2, qtype, d2, second);
    LayoutCarried(s, p, o, p2, qtype, d1, first);
  }
}
