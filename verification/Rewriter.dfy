/**
 DropAddress (src/Rfc1035.cpp): deletes the hints of one address family, or of both, from an
 SVCB/HTTPS response in one pass, relocating the compression pointers it copies.
 */
module Rewriter {
  import opened Wrappers
  import opened Bytes
  import opened Parser

  /** What was deleted, oldest first: input offset and number of bytes. */
  type Removed = seq<(nat, nat)>

  /** The bytes deleted at input offsets before t. */
  function DeletedBefore(removed: Removed, t: nat): nat {
    if removed == [] then 0
    else
      var (at, len) := removed[|removed| - 1];
      DeletedBefore(removed[..|removed| - 1], t) + if at < t then len else 0
  }

  const POINTER_RANGE := 0x4000

  /** The 14-bit offset a compression pointer at p holds. */
  function PointerAt(s: seq<byte>, p: nat): (t: nat)
    requires p + 2 <= |s|
    ensures t < POINTER_RANGE
  {
    U16(s, p) % POINTER_RANGE
  }

  /** A compression pointer to t. C++ subtracts modulo the width of size_t and keeps 14 bits. */
  function PutPointer(t: int): (b: seq<byte>)
    ensures |b| == 2
  {
    [0xC0 + t % POINTER_RANGE / 0x100, t % 0x100]
  }

  datatype Copied = NoName | Copied(end: nat, bytes: seq<byte>)

  /** The end of the name at p and its copy, its pointer moved past what was removed. */
  function CopiedName(s: seq<byte>, p: nat, removed: Removed): (r: Copied)
    ensures r.Copied? ==> p < r.end <= |s| && |r.bytes| == r.end - p
    decreases |s| - p
  {
    if p >= |s| then NoName
    else if s[p] == 0 then Copied(p + 1, [0])
    else if s[p] >= 0xC0 then
      if p + 2 > |s| then NoName
      else
        var t := PointerAt(s, p);
        Copied(p + 2, PutPointer(t - DeletedBefore(removed, t)))
    else if s[p] >= 0x40 || p + 1 + s[p] > |s| then NoName
    else
      var next := p + 1 + s[p];
      JoinLabel(s[p..next], CopiedName(s, next, removed))
  }

  function JoinLabel(text: seq<byte>, rest: Copied): Copied {
    if rest.NoName? then NoName else Copied(rest.end, text + rest.bytes)
  }

  /** The address families whose hints go. */
  datatype Families = Families(v4: bool, v6: bool)

  predicate Drops(drop: Families, key: uint16) {
    (key == IPV4HINT && drop.v4) || (key == IPV6HINT && drop.v6)
  }

  datatype Kept = Malformed | Kept(bytes: seq<byte>, removed: Removed)

  /** The bytes of the SvcParam at p; 0 if it does not fit before end. */
  function ParamLength(s: seq<byte>, p: nat, end: nat): (len: nat)
    requires p <= end <= |s|
    ensures len == 0 || 4 <= len <= end - p
  {
    if p + 4 > end || p + 4 + U16(s, p + 2) > end then 0 else 4 + U16(s, p + 2)
  }

  /** One SvcParam before the rest. */
  function JoinParam(dropped: bool, at: nat, param: seq<byte>, rest: Kept): Kept {
    if rest.Malformed? then Malformed
    else if dropped then Kept(rest.bytes, [(at, |param|)] + rest.removed)
    else Kept(param + rest.bytes, rest.removed)
  }

  /** The SvcParams in [p, end) that stay, and the ranges of those that go. */
  function KeptParams(s: seq<byte>, p: nat, end: nat, drop: Families): (r: Kept)
    requires p <= end <= |s|
    decreases end - p
  {
    if p == end then Kept([], [])
    else
      var len := ParamLength(s, p, end);
      if len == 0 then Malformed
      else JoinParam(Drops(drop, U16(s, p)), p, s[p..p + len], KeptParams(s, p + len, end, drop))
  }

  function JoinTarget(head: seq<byte>, params: Kept): Kept {
    if params.Malformed? then Malformed else Kept(head + params.bytes, params.removed)
  }

  /** SvcPriority, TargetName and SvcParams in [p, end). */
  function KeptSvcb(s: seq<byte>, p: nat, end: nat, drop: Families, removed: Removed): Kept
    requires p <= end <= |s|
  {
    if p + 2 > end then Malformed
    else
      var target := CopiedName(s, p + 2, removed);
      if target.NoName? || target.end > end then Malformed
      else JoinTarget(s[p..p + 2] + target.bytes, KeptParams(s, target.end, end, drop))
  }

  datatype Answer =
    | Broken
    | CutOff  // of another type, after a removal: its own names could not be relocated
    | Answer(end: nat, bytes: seq<byte>, removed: Removed)

  function KeptRdata(s: seq<byte>, q: nat, end: nat, qtype: uint16, drop: Families, removed: Removed): Kept
    requires q + 10 <= end <= |s|
  {
    if U16(s, q) != qtype then Kept(s[q + 10..end], [])
    else KeptSvcb(s, q + 10, end, drop, removed)
  }

  /** The answer record at p as it is copied, with the ranges its copying removes. */
  function CopiedAnswer(s: seq<byte>, p: nat, qtype: uint16, drop: Families, removed: Removed): (r: Answer)
    ensures r.Answer? ==> p < r.end <= |s|
  {
    var owner := CopiedName(s, p, removed);
    if owner.NoName? || owner.end + 10 > |s| then Broken
    else if U16(s, owner.end) != qtype && removed != [] then CutOff
    else
      var q := owner.end;
      var end := q + 10 + U16(s, q + 8);
      if end > |s| then Broken
      else
        JoinAnswer(end, owner.bytes, s[q..q + 8], KeptRdata(s, q, end, qtype, drop, removed))
  }

  /** Owner name, TYPE, CLASS and TTL, the length of the RDATA, the RDATA. */
  function JoinAnswer(end: nat, owner: seq<byte>, fixed: seq<byte>, rdata: Kept): Answer {
    if rdata.Malformed? then Broken
    else Answer(end, owner + fixed + PutU16(|rdata.bytes| % 0x1_0000) + rdata.bytes, rdata.removed)
  }

  /** Where the pass over the answers stands. */
  datatype Pass = Pass(p: nat, out: seq<byte>, removed: Removed, i: nat)

  function Advance(st: Pass, a: Answer): Pass
    requires a.Answer?
  {
    Pass(a.end, st.out + a.bytes, st.removed + a.removed, st.i + 1)
  }

  /** The pass from st over the rest of n answers. */
  function CopiedAnswers(s: seq<byte>, n: nat, qtype: uint16, drop: Families, st: Pass): (r: Option<Pass>)
    requires st.i <= n
    ensures r.Some? ==> st.i <= r.value.i <= n && st.out <= r.value.out && st.p <= r.value.p
    decreases n - st.i
  {
    if st.i == n then Some(st)
    else
      var a := CopiedAnswer(s, st.p, qtype, drop, st.removed);
      if a.Broken? then None
      else if a.CutOff? then Some(st)
      else CopiedAnswers(s, n, qtype, drop, Advance(st, a))
  }

  function Start(s: seq<byte>, p: nat): Pass
    requires p <= |s|
  {
    Pass(p, s[..p], [], 0)
  }

  /** Header counts: n answers, no authority and no additional records. */
  function WithCounts(s: seq<byte>, n: uint16): (r: seq<byte>)
    requires |s| >= 12
    ensures |r| == |s|
  {
    s[..6] + PutU16(n) + [0, 0, 0, 0] + s[12..]
  }

  function Emptied(s: seq<byte>): Option<seq<byte>> {
    match ParsedQuestion(s)
    case None => None
    case Some(q) => Some(WithCounts(s[..q.end], 0))
  }

  function RewrittenPass(s: seq<byte>, qtype: uint16, drop: Families): Option<Pass> {
    match ParsedQuestion(s)
    case None => None
    case Some(q) => CopiedAnswers(s, q.answers, qtype, drop, Start(s, q.end))
  }

  function Rewritten(s: seq<byte>, qtype: uint16, drop: Families): Option<seq<byte>> {
    match RewrittenPass(s, qtype, drop)
    case None => None
    case Some(st) => Some(WithCounts(st.out, st.i))
  }

  /** What DropAddress makes of a response to a query of type qtype. */
  function Dropped(s: seq<byte>, qtype: uint16, drop: Families): Option<seq<byte>> {
    if qtype == TYPE_A then if drop.v4 then Emptied(s) else Some(s)
    else if qtype == TYPE_AAAA then if drop.v6 then Emptied(s) else Some(s)
    else if qtype != TYPE_SVCB && qtype != TYPE_HTTPS then Some(s)
    else Rewritten(s, qtype, drop)
  }

  // ----- the loops

  /** p and out are the caller's cursor and output, moved even by a failed copy. */
  method CopyName(s: seq<byte>, p0: nat, out0: seq<byte>, removed: Removed)
    returns (ok: bool, p: nat, out: seq<byte>)
    ensures ok == CopiedName(s, p0, removed).Copied?
    ensures ok ==> var c := CopiedName(s, p0, removed); p == c.end && out == out0 + c.bytes
  {
    p, out := p0, out0;
    while p < |s|
      invariant Copies(CopiedName(s, p0, removed), CopiedName(s, p, removed), out0, out)
    {
      var c := s[p];
      if c == 0 {
        out, p := out + [c], p + 1;
        return true, p, out;
      }
      if c >= 0xC0 {
        if p + 1 >= |s| {
          return false, p, out;
        }
        var t: int := PointerAt(s, p);
        var d := TotalBefore(removed, t);
        out := out + PutPointer(t - d);
        p := p + 2;
        return true, p, out;
      }
      if c >= 0x40 || p + 1 + c > |s| {
        return false, p, out;
      }
      out := out + s[p..p + 1 + c];
      p := p + 1 + c;
    }
    return false, p, out;
  }

  ghost predicate Copies(goal: Copied, rest: Copied, out0: seq<byte>, out: seq<byte>) {
    && goal.Copied? == rest.Copied?
    && (goal.Copied? ==> goal.end == rest.end && out0 + goal.bytes == out + rest.bytes)
  }

  method TotalBefore(removed: Removed, t: nat) returns (d: nat)
    ensures d == DeletedBefore(removed, t)
  {
    d := 0;
    for i := 0 to |removed|
      invariant d == DeletedBefore(removed[..i], t)
    {
      assert removed[..i + 1][..i] == removed[..i];
      if removed[i].0 < t {
        d := d + removed[i].1;
      }
    }
    assert removed[..|removed|] == removed;
  }

  method SetCounts(s: seq<byte>, n: uint16) returns (r: seq<byte>)
    requires |s| >= 12
    ensures r == WithCounts(s, n)
  {
    r := s[6 := n / 256][7 := n % 256];
    r := r[8 := 0][9 := 0];
    r := r[10 := 0][11 := 0];
  }

  method EmptyResponse(s: seq<byte>) returns (ok: bool, r: seq<byte>)
    ensures ok == Emptied(s).Some?
    ensures r == if ok then Emptied(s).value else s
  {
    var end, answers;
    ok, end, answers := QuestionEnd(s);
    if !ok {
      return false, s;
    }
    r := SetCounts(s[..end], 0);
  }

  lemma ParamGoesOn(out: seq<byte>, removed: Removed, dropped: bool, p: nat, param: seq<byte>, next: Kept)
    ensures JoinParam(dropped, p, param, next).Kept? == next.Kept?
    ensures next.Kept? ==> var rest := JoinParam(dropped, p, param, next);
              && out + rest.bytes == (if dropped then out else out + param) + next.bytes
              && removed + rest.removed == (if dropped then removed + [(p, |param|)] else removed) + next.removed
  {
    if next.Malformed? {
    } else if dropped {
      assert removed + ([(p, |param|)] + next.removed) == (removed + [(p, |param|)]) + next.removed;
    } else {
      assert out + (param + next.bytes) == (out + param) + next.bytes;
    }
  }

  /** DropAddress' inner loop, over the SvcParams in [p, end). */
  method CopyParams(s: seq<byte>, p0: nat, end: nat, drop: Families, out0: seq<byte>, removed0: Removed)
    returns (ok: bool, out: seq<byte>, removed: Removed)
    requires p0 <= end <= |s|
    ensures ok == KeptParams(s, p0, end, drop).Kept?
    ensures ok ==> var k := KeptParams(s, p0, end, drop); out == out0 + k.bytes && removed == removed0 + k.removed
  {
    hide JoinParam, U16;
    var p := p0;
    out, removed := out0, removed0;
    ghost var goal := KeptParams(s, p0, end, drop);
    while p < end
      invariant p <= end
      invariant var rest := KeptParams(s, p, end, drop);
                && goal.Kept? == rest.Kept?
                && (goal.Kept? ==> out0 + goal.bytes == out + rest.bytes && removed0 + goal.removed == removed + rest.removed)
    {
      if p + 4 > end {
        return false, out, removed;
      }
      var key := U16(s, p);
      var len := 4 + U16(s, p + 2);
      if p + len > end {
        return false, out, removed;
      }
      ParamGoesOn(out, removed, Drops(drop, key), p, s[p..p + len], KeptParams(s, p + len, end, drop));
      if (key == IPV4HINT && drop.v4) || (key == IPV6HINT && drop.v6) {
        removed := removed + [(p, len)];
      } else {
        out := out + s[p..p + len];
      }
      p := p + len;
    }
    ok := true;
  }

  /** One round of DropAddress' outer loop. */
  method CopyAnswer(s: seq<byte>, qtype: uint16, drop: Families, st: Pass)
    returns (ok: bool, cut: bool, next: Pass)
    requires st.p <= |s|
    ensures ok == !CopiedAnswer(s, st.p, qtype, drop, st.removed).Broken?
    ensures ok ==> cut == CopiedAnswer(s, st.p, qtype, drop, st.removed).CutOff?
    ensures ok && !cut ==> next == Advance(st, CopiedAnswer(s, st.p, qtype, drop, st.removed))
  {
    var named, q, name := CopyName(s, st.p, [], st.removed);
    if !named || q + 10 > |s| {
      return false, false, st;
    }
    if U16(s, q) != qtype && |st.removed| > 0 {
      return true, true, st;
    }
    cut := false;
    ok, next := CopyWhole(s, qtype, drop, st);
  }

  /** The rest of the round, for a record whose owner name and fixed fields are in the packet. */
  method CopyWhole(s: seq<byte>, qtype: uint16, drop: Families, st: Pass) returns (ok: bool, next: Pass)
    requires var owner := CopiedName(s, st.p, st.removed); owner.Copied? && owner.end + 10 <= |s|
    requires !CopiedAnswer(s, st.p, qtype, drop, st.removed).CutOff?
    ensures var a := CopiedAnswer(s, st.p, qtype, drop, st.removed);
            ok == a.Answer? && (ok ==> next == Advance(st, a))
  {
    var _, p, out := CopyName(s, st.p, st.out, st.removed);
    var end := p + 10 + U16(s, p + 8);
    if end > |s| {
      return false, st;
    }
    ghost var owner := CopiedName(s, st.p, st.removed);
    ghost var rdata := KeptRdata(s, p, end, qtype, drop, st.removed);
    var fixed := s[p..p + 8];
    out := out + fixed;
    var lenpos := |out|;
    out := out + [0, 0];
    var removed;
    ok, out, removed := CopyRdata(s, p, end, qtype, drop, out, st.removed);
    if !ok {
      return false, st;
    }
    assert |out| - lenpos - 2 == |rdata.bytes|;
    out := WriteU16(out, lenpos, (|out| - lenpos - 2) % 0x1_0000);
    LengthFilledIn(st.out, owner.bytes, fixed, rdata.bytes, out);
    next := Pass(end, out, removed, st.i + 1);
  }

  lemma LengthFilledIn(before: seq<byte>, owner: seq<byte>, fixed: seq<byte>, rdata: seq<byte>, out: seq<byte>)
    requires
      var head := before + owner + fixed;
      var blank := head + [0, 0] + rdata;
      out == blank[..|head|] + PutU16(|rdata| % 0x1_0000) + blank[|head| + 2..]
    ensures out == before + (owner + fixed + PutU16(|rdata| % 0x1_0000) + rdata)
  {
  }

  method CopyRdata(s: seq<byte>, q: nat, end: nat, qtype: uint16, drop: Families, out0: seq<byte>, removed0: Removed)
    returns (ok: bool, out: seq<byte>, removed: Removed)
    requires q + 10 <= end <= |s|
    ensures ok == KeptRdata(s, q, end, qtype, drop, removed0).Kept?
    ensures ok ==> var k := KeptRdata(s, q, end, qtype, drop, removed0);
                   out == out0 + k.bytes && removed == removed0 + k.removed
  {
    var p := q + 10;
    if U16(s, q) != qtype {
      ok, out, removed := true, out0 + s[p..end], removed0;
    } else {
      ok, out, removed := CopySvcb(s, p, end, drop, out0, removed0);
    }
  }

  method WriteU16(s: seq<byte>, p: nat, n: uint16) returns (r: seq<byte>)
    requires p + 2 <= |s|
    ensures r == s[..p] + PutU16(n) + s[p + 2..]
  {
    r := s[p := n / 256][p + 1 := n % 256];
  }

  method CopySvcb(s: seq<byte>, p0: nat, end: nat, drop: Families, out0: seq<byte>, removed0: Removed)
    returns (ok: bool, out: seq<byte>, removed: Removed)
    requires p0 <= end <= |s|
    ensures ok == KeptSvcb(s, p0, end, drop, removed0).Kept?
    ensures ok ==> var k := KeptSvcb(s, p0, end, drop, removed0);
                   out == out0 + k.bytes && removed == removed0 + k.removed
  {
    var p := p0;
    out, removed := out0, removed0;
    if p + 2 > end {
      return false, out, removed;
    }
    out := out + s[p..p + 2];
    p := p + 2;
    ok, p, out := CopyName(s, p, out, removed);
    if !ok || p > end {
      return false, out, removed;
    }
    ghost var head := s[p0..p0 + 2] + CopiedName(s, p0 + 2, removed0).bytes;
    assert out == out0 + head;
    ghost var params := KeptParams(s, p, end, drop);
    ok, out, removed := CopyParams(s, p, end, drop, out, removed);
    if ok {
      assert out == out0 + (head + params.bytes);
    }
  }

  /** r is the caller's buffer afterwards. */
  method DropAddress(s: seq<byte>, qtype: uint16, drop: Families) returns (ok: bool, r: seq<byte>)
    ensures ok == Dropped(s, qtype, drop).Some?
    ensures r == if ok then Dropped(s, qtype, drop).value else s
  {
    if qtype == TYPE_A {
      if drop.v4 {
        ok, r := EmptyResponse(s);
        return;
      }
      return true, s;
    }
    if qtype == TYPE_AAAA {
      if drop.v6 {
        ok, r := EmptyResponse(s);
        return;
      }
      return true, s;
    }
    if qtype != TYPE_SVCB && qtype != TYPE_HTTPS {
      return true, s;
    }

    var end, answers;
    ok, end, answers := QuestionEnd(s);
    if !ok {
      return false, s;
    }
    var st := Start(s, end);
    while st.i < answers
      invariant st.i <= answers && st.p <= |s| && |st.out| >= 12
      invariant RewrittenPass(s, qtype, drop) == CopiedAnswers(s, answers, qtype, drop, st)
    {
      var cut, next;
      ok, cut, next := CopyAnswer(s, qtype, drop, st);
      if !ok {
        return false, s;
      }
      if cut {
        break;
      }
      st := next;
    }
    r := SetCounts(st.out, st.i);
    ok := true;
  }
}
