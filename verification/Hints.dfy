/** The SvcParams of the records of a packet, and the ranges a rewrite deletes from them. */
module Hints {
  import opened Wrappers
  import opened Bytes
  import opened Rewriter
  import opened Relocation
  import opened Copies
  import opened Decoder

  /** The keys and lengths of a record's SvcParams. */
  datatype Layout = End | Next(key: uint16, len: nat, rest: Layout)

  function LayoutOf(s: seq<byte>, p: nat, end: nat): Layout
    requires p <= end <= |s|
    decreases end - p
  {
    if p == end || ParamLength(s, p, end) == 0 then End
    else Next(U16(s, p), ParamLength(s, p, end), LayoutOf(s, p + ParamLength(s, p, end), end))
  }

  predicate NoEmptyParam(l: Layout) {
    l.Next? ==> 0 < l.len && NoEmptyParam(l.rest)
  }

  /** The ranges a rewrite deletes from parameters that begin at p. */
  function Gone(l: Layout, p: nat, drop: Families): Removed {
    if l.End? then []
    else if Drops(drop, l.key) then [(p, l.len)] + Gone(l.rest, p + l.len, drop)
    else Gone(l.rest, p + l.len, drop)
  }

  function Left(l: Layout, drop: Families): Layout {
    if l.End? then End
    else if Drops(drop, l.key) then Left(l.rest, drop)
    else Next(l.key, l.len, Left(l.rest, drop))
  }

  lemma {:induction false} KeptGone(s: seq<byte>, p: nat, end: nat, drop: Families)
    requires p <= end <= |s| && KeptParams(s, p, end, drop).Kept?
    ensures KeptParams(s, p, end, drop).removed == Gone(LayoutOf(s, p, end), p, drop)
    ensures NoEmptyParam(LayoutOf(s, p, end))
    decreases end - p
  {
    if p < end {
      KeptGone(s, p + ParamLength(s, p, end), end, drop);
    }
  }

  lemma {:induction false} AlignedLayout(s: seq<byte>, p: nat, end: nat, o: seq<byte>, p2: nat, end2: nat, d1: Families)
    requires p <= end <= |s| && p2 <= end2 <= |o| && Aligned(s, p, end, o, p2, end2, d1)
    ensures LayoutOf(o, p2, end2) == Left(LayoutOf(s, p, end), d1)
    decreases end - p
  {
    hide U16;
    if p < end {
      var len := ParamLength(s, p, end);
      AlignedLayout(s, p + len, end, o, if Drops(d1, U16(s, p)) then p2 else p2 + len, end2, d1);
    }
  }

  lemma {:induction false} GoneFrom(l: Layout, p: nat, drop: Families)
    ensures forall r <- Gone(l, p, drop) :: p <= r.0
  {
    if l.Next? {
      GoneFrom(l.rest, p + l.len, drop);
    }
  }

  /** Where the SvcParams of the record at p begin and end, if it is of type qtype. */
  function ParamsOf(s: seq<byte>, p: nat, qtype: uint16): (r: Option<(nat, nat)>)
    ensures r.Some? ==> p <= r.value.0 <= r.value.1 <= |s|
  {
    match RecordEnd(s, p)
    case None => None
    case Some((q, end)) =>
      match NameEnd(s, q + 12)
      case None => None
      case Some(r) => if U16(s, q) != qtype || r > end then None else Some((r, end))
  }

  /** The ranges a rewrite deletes from the record at p. */
  function GoneAt(s: seq<byte>, p: nat, qtype: uint16, drop: Families): Removed {
    match ParamsOf(s, p, qtype)
    case None => []
    case Some(params) => Gone(LayoutOf(s, params.0, params.1), params.0, drop)
  }

  lemma {:induction false} CopyEndsName(s: seq<byte>, p: nat, removed: Removed)
    requires CopiedName(s, p, removed).Copied?
    ensures NameEnd(s, p) == Some(CopiedName(s, p, removed).end)
    decreases |s| - p
  {
    if 0 < s[p] < 0x40 {
      CopyEndsName(s, p + 1 + s[p], removed);
    }
  }

  lemma {:induction false} EndedNameCopies(s: seq<byte>, p: nat, removed: Removed)
    requires NameEnd(s, p).Some?
    ensures CopiedName(s, p, removed).Copied? && CopiedName(s, p, removed).end == NameEnd(s, p).value
    decreases |s| - p
  {
    if 0 < s[p] < 0x40 {
      EndedNameCopies(s, p + 1 + s[p], removed);
    }
  }

  lemma FirstRecord(s: seq<byte>, p: nat, qtype: uint16, drop: Families, removed: Removed, q: nat)
    requires CopiedAnswer(s, p, qtype, drop, removed).Answer? && q == CopiedName(s, p, removed).end
    ensures q + 10 <= CopiedAnswer(s, p, qtype, drop, removed).end
    ensures RecordEnd(s, p) == Some((q, CopiedAnswer(s, p, qtype, drop, removed).end))
  {
    CopyEndsName(s, p, removed);
  }

  /** Whatever was removed before, the names end where they do. */
  lemma ParamsThere(s: seq<byte>, p: nat, qtype: uint16, removed: Removed, q: nat)
    requires CopiedName(s, p, removed).Copied? && q == CopiedName(s, p, removed).end && q + 10 <= |s|
    ensures U16(s, q) != qtype ==> ParamsOf(s, p, qtype).None?
    ensures var end, target := q + 10 + U16(s, q + 8), CopiedName(s, q + 12, removed);
            U16(s, q) == qtype && target.Copied? && target.end <= end <= |s| ==> ParamsOf(s, p, qtype) == Some((target.end, end))
  {
    hide CopiedName, NameEnd;
    CopyEndsName(s, p, removed);
    if CopiedName(s, q + 12, removed).Copied? {
      CopyEndsName(s, q + 12, removed);
    }
  }

  lemma RemovedFromRecord(s: seq<byte>, p: nat, qtype: uint16, drop: Families, removed: Removed)
    requires CopiedAnswer(s, p, qtype, drop, removed).Answer?
    ensures CopiedAnswer(s, p, qtype, drop, removed).removed == GoneAt(s, p, qtype, drop)
  {
    hide CopiedAnswer, CopiedName, LayoutOf, Gone, KeptParams, ParamsOf;
    AnswerParts(s, p, qtype, drop, removed);
    var q := CopiedName(s, p, removed).end;
    ParamsThere(s, p, qtype, removed, q);
    if U16(s, q) == qtype {
      KeptGone(s, CopiedName(s, q + 12, removed).end, q + 10 + U16(s, q + 8), drop);
    }
  }
}
