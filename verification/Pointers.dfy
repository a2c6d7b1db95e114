/** The compression pointers a rewrite copies, and where they lead. */
module Pointers {
  import opened Wrappers
  import opened Bytes
  import opened Parser
  import opened Rewriter
  import opened Relocation

  /** The target of the pointer that ends the name at p. */
  function NamePointer(s: seq<byte>, p: nat): (r: Option<nat>)
    ensures r.Some? ==> r.value < POINTER_RANGE
    decreases |s| - p
  {
    if p >= |s| || s[p] == 0 then None
    else if s[p] >= 0xC0 then if p + 2 <= |s| then Some(PointerAt(s, p)) else None
    else NamePointer(s, p + 1 + s[p])
  }

  ghost predicate NameAvoids(s: seq<byte>, p: nat, removed: Removed) {
    NamePointer(s, p).Some? ==> Avoids(removed, NamePointer(s, p).value)
  }

  /** Neither the owner name nor the TargetName of the record at p points inside a removed hint. */
  ghost predicate AnswerAvoids(s: seq<byte>, p: nat, qtype: uint16, removed: Removed) {
    && NameAvoids(s, p, removed)
    && (CopiedName(s, p, removed).Copied? ==>
          var q := CopiedName(s, p, removed).end;
          q + 10 <= |s| && U16(s, q) == qtype ==> NameAvoids(s, q + 10 + 2, removed))
  }

  /** The same for every record the pass from st copies. */
  ghost predicate PointersAvoid(s: seq<byte>, n: nat, qtype: uint16, drop: Families, st: Pass)
    requires st.i <= n
    decreases n - st.i
  {
    match if st.i == n then CutOff else CopiedAnswer(s, st.p, qtype, drop, st.removed)
    case Answer(end, bytes, gone) =>
      && AnswerAvoids(s, st.p, qtype, st.removed)
      && PointersAvoid(s, n, qtype, drop, Advance(st, Answer(end, bytes, gone)))
    case _ => true
  }

  ghost predicate PointersAvoidHints(s: seq<byte>, qtype: uint16, drop: Families) {
    ParsedQuestion(s).Some? ==>
      var q := ParsedQuestion(s).value;
      PointersAvoid(s, q.answers, qtype, drop, Start(s, q.end))
  }
}
