/** Names and SvcParams that two rewrites copy one after the other. */
module RewriteTwice {
  import opened Bytes
  import opened Rewriter
  import opened Relocation
  import opened Pointers
  import opened Copies
  import opened Hints

  function Both(a: Families, b: Families): Families {
    Families(a.v4 || b.v4, a.v6 || b.v6)
  }

  /** Nothing b drops is left by a. */
  predicate Covers(a: Families, b: Families) {
    Both(a, b) == a
  }

  // ----- offsets through two rewrites

  /** first, in s, and then second, in the output of that, take t where both takes it. */
  ghost predicate TracksAt(first: Removed, second: Removed, both: Removed, t: nat) {
    Avoids(first, t) ==> Moved(first, t) >= 0 && Moved(both, t) == Moved(second, Moved(first, t))
  }

  ghost predicate Tracks(first: Removed, second: Removed, both: Removed) {
    forall t: nat :: TracksAt(first, second, both, t)
  }

  lemma OneDeletion(p: nat, len: nat, t: nat)
    ensures DeletedBefore([(p, len)], t) == if p < t then len else 0
  {
    assert [(p, len)][..0] == [];
  }

  /**
   A pointer to t is moved as far by two relocations, the second from where 14 bits leave it, as
   by one.
   */
  predicate Composes(first: Removed, second: Removed, both: Removed, t: nat) {
    (DeletedBefore(first, t) + DeletedBefore(second, Moved(first, t) % POINTER_RANGE)) % POINTER_RANGE
    == DeletedBefore(both, t) % POINTER_RANGE
  }

  /** The pointer of the name at p, if it has one. */
  predicate NameComposes(s: seq<byte>, p: nat, first: Removed, second: Removed, both: Removed) {
    NamePointer(s, p).Some? ==> Composes(first, second, both, NamePointer(s, p).value)
  }

  lemma SameRemainder(a: int, b: int)
    ensures a % POINTER_RANGE == b % POINTER_RANGE <==> (a - b) % POINTER_RANGE == 0
  {
  }

  lemma SamePointerBytes(a: int, b: int)
    ensures PutPointer(a) == PutPointer(b) <==> a % POINTER_RANGE == b % POINTER_RANGE
  {
    ModTwice(a);
    ModTwice(b);
    PointerBytes(a % POINTER_RANGE);
    PointerBytes(b % POINTER_RANGE);
  }

  /** That is exactly when the pointer written twice has the bytes of the pointer written once. */
  lemma {:induction false} ComposesExactly(first: Removed, second: Removed, both: Removed, t: nat)
    ensures Composes(first, second, both, t) <==>
            PutPointer(Moved(second, Moved(first, t) % POINTER_RANGE)) == PutPointer(Moved(both, t))
  {
    hide PutPointer, DeletedBefore;
    var m := Moved(first, t);
    var twice, once := Moved(second, m % POINTER_RANGE), Moved(both, t);
    var d, d2 := DeletedBefore(first, t) + DeletedBefore(second, m % POINTER_RANGE), DeletedBefore(both, t);
    SamePointerBytes(twice, once);
    SameRemainder(twice, once);
    SameRemainder(d, d2);
    assert twice - once == d2 - d - m / POINTER_RANGE * POINTER_RANGE;
    Shifted(d2 - d, m / POINTER_RANGE);
    Negated(d - d2);
  }

  lemma Shifted(a: int, k: int)
    ensures (a - k * POINTER_RANGE) % POINTER_RANGE == a % POINTER_RANGE
  {
  }

  lemma Negated(a: int)
    ensures a % POINTER_RANGE == 0 <==> -a % POINTER_RANGE == 0
  {
  }

  /** Either the second rewrite finds nothing to remove, or offsets track. */
  ghost predicate Steps(covered: bool, first: Removed, second: Removed, both: Removed) {
    && (both == [] <==> first == [] && second == [])
    && if covered then second == [] && both == first else Tracks(first, second, both)
  }

  lemma AvoidingComposes(s: seq<byte>, p: nat, end: nat, covered: bool, first: Removed, second: Removed, both: Removed)
    requires Ordered(first, 0, end) && Steps(covered, first, second, both)
    requires covered || NameAvoids(s, p, first)
    ensures NameComposes(s, p, first, second, both)
  {
    if NamePointer(s, p).Some? {
      var t := NamePointer(s, p).value;
      if !covered {
        MovedStaysAbove(first, 0, end, t);
        assert TracksAt(first, second, both, t);
      }
    }
  }

  // ----- the pieces of a record, rewritten twice

  /** c was copied first, c2 from that at p2, and once is the copy with all deletions: as long, and equal when alike. */
  ghost predicate SameCopy(alike: bool, c: Copied, p2: nat, c2: Copied, once: Copied) {
    && c.Copied? && c2.Copied? && once.Copied? && once.end == c.end && c2.end == p2 + |c.bytes|
    && |c2.bytes| == |once.bytes| && (c2.bytes == once.bytes <==> alike)
  }

  lemma {:induction false} NameTwice(s: seq<byte>, p: nat, o: seq<byte>, p2: nat, first: Removed, second: Removed,
          both: Removed)
    requires CopiedName(s, p, first).Copied? && Holds(o, p2, CopiedName(s, p, first).bytes)
    ensures SameCopy(NameComposes(s, p, first, second, both),
                     CopiedName(s, p, first), p2, CopiedName(o, p2, second), CopiedName(s, p, both))
    decreases |s| - p
  {
    hide PointerAt, PutPointer, DeletedBefore, Composes, Holds;
    NameHolds(s, p, first, o, p2);
    if s[p] >= 0xC0 {
      PointerTwice(s, p, o, p2, first, second, both);
    } else if s[p] > 0 {
      var next := p + 1 + s[p];
      hide CopiedName;
      NameTwice(s, next, o, p2 + 1 + s[p], first, second, both);
      assert NameComposes(s, p, first, second, both) == NameComposes(s, next, first, second, both);
      LabelTwice(s, p, o, p2, first, second, both, NameComposes(s, next, first, second, both));
    }
  }

  lemma PointerTwice(s: seq<byte>, p: nat, o: seq<byte>, p2: nat, first: Removed, second: Removed, both: Removed)
    requires p + 2 <= |s| && s[p] >= 0xC0 && Holds(o, p2, PutPointer(Moved(first, PointerAt(s, p))))
    ensures CopiedName(s, p, both) == Copied(p + 2, PutPointer(Moved(both, PointerAt(s, p))))
    ensures CopiedName(o, p2, second).Copied? && CopiedName(o, p2, second).end == p2 + 2
    ensures CopiedName(o, p2, second).bytes == PutPointer(Moved(both, PointerAt(s, p))) <==>
            Composes(first, second, both, PointerAt(s, p))
  {
    hide PointerAt, PutPointer, DeletedBefore, Composes;
    PointerRoundTrip(o, p2, Moved(first, PointerAt(s, p)));
    ComposesExactly(first, second, both, PointerAt(s, p));
  }

  lemma SameHead(a: seq<byte>, b: seq<byte>, c: seq<byte>, d: seq<byte>)
    requires |a| == |c|
    ensures a + b == c + d <==> a == c && b == d
  {
    if a + b == c + d {
      assert a == (a + b)[..|a|] && c == (c + d)[..|a|] && b == (a + b)[|a|..] && d == (c + d)[|a|..];
    }
  }

  lemma LabelTwice(s: seq<byte>, p: nat, o: seq<byte>, p2: nat, first: Removed, second: Removed, both: Removed, alike: bool)
    requires p < |s| && 0 < s[p] < 0x40 && p + 1 + s[p] <= |s| && Holds(o, p2, s[p..p + 1 + s[p]])
    requires var next, next2 := p + 1 + s[p], p2 + 1 + s[p];
             SameCopy(alike, CopiedName(s, next, first), next2, CopiedName(o, next2, second), CopiedName(s, next, both))
    ensures SameCopy(alike, CopiedName(s, p, first), p2, CopiedName(o, p2, second), CopiedName(s, p, both))
  {
    var next, next2 := p + 1 + s[p], p2 + 1 + s[p];
    assert o[p2] == o[p2..p2 + |s[p..next]|][0] == s[p];
    SameHead(o[p2..next2], CopiedName(o, next2, second).bytes, s[p..next], CopiedName(s, next, both).bytes);
  }

  /** k1 kept first and k2 of that second is as long as k kept at once, and equal when alike. */
  ghost predicate SameKept(alike: bool, covers: bool, k1: Kept, k2: Kept, k: Kept) {
    && k1.Kept? && k2.Kept? && k.Kept? && |k.bytes| == |k2.bytes| && (k2.bytes == k.bytes <==> alike)
    && (k.removed == [] <==> k1.removed == [] && k2.removed == [])
    && (covers ==> k2.removed == [] && k.removed == k1.removed)
  }

  lemma {:induction false} ParamsTwice(s: seq<byte>, p: nat, end: nat, o: seq<byte>, p2: nat, end2: nat, d1: Families,
          d2: Families)
    requires p <= end <= |s| && p2 <= end2 <= |o| && Aligned(s, p, end, o, p2, end2, d1)
    ensures SameKept(true, Covers(d1, d2), KeptParams(s, p, end, d1), KeptParams(o, p2, end2, d2),
                     KeptParams(s, p, end, Both(d1, d2)))
    decreases end - p
  {
    if p < end {
      var len := ParamLength(s, p, end);
      ParamsTwice(s, p + len, end, o, if Drops(d1, U16(s, p)) then p2 else p2 + len, end2, d1, d2);
    }
  }

  /**
   For an offset t not below p, first and second remove together what both removes, when the
   first rewrite has brought p to p2.
   */
  ghost predicate SumsUp(p: nat, p2: nat, first: Removed, second: Removed, both: Removed, t: nat)
    requires p <= t
  {
    Avoids(first, t) ==>
      var moved := t - p + p2 - DeletedBefore(first, t);
      moved >= p2 && DeletedBefore(both, t) == DeletedBefore(first, t) + DeletedBefore(second, moved)
  }

  lemma SumFirst(p: nat, p2: nat, len: nat, first: Removed, second: Removed, both: Removed, t: nat)
    requires p + len <= t && SumsUp(p + len, p2, first, second, both, t)
    ensures SumsUp(p, p2, [(p, len)] + first, second, [(p, len)] + both, t)
  {
    DeletedAppend([(p, len)], first, t);
    DeletedAppend([(p, len)], both, t);
    OneDeletion(p, len, t);
    assert forall r <- first :: r in [(p, len)] + first;
  }

  lemma SumSecond(p: nat, p2: nat, len: nat, first: Removed, second: Removed, both: Removed, t: nat)
    requires p + len <= t && 0 < len && SumsUp(p + len, p2 + len, first, second, both, t)
    ensures SumsUp(p, p2, first, [(p2, len)] + second, [(p, len)] + both, t)
  {
    DeletedAppend([(p, len)], both, t);
    OneDeletion(p, len, t);
    if Avoids(first, t) {
      var moved := t - p + p2 - DeletedBefore(first, t);
      DeletedAppend([(p2, len)], second, moved);
      OneDeletion(p2, len, moved);
    }
  }

  /** Nothing is removed at an offset the deletions only begin behind. */
  lemma SumNothing(p: nat, p2: nat, first: Removed, second: Removed, both: Removed, t: nat)
    requires p <= t
    requires forall r <- first :: t <= r.0
    requires forall r <- second :: t - p + p2 <= r.0
    requires forall r <- both :: t <= r.0
    ensures SumsUp(p, p2, first, second, both, t)
  {
    NothingBefore(first, t);
    NothingBefore(second, t - p + p2);
    NothingBefore(both, t);
  }

  lemma SumInside(p: nat, p2: nat, len: nat, first: Removed, second: Removed, both: Removed, t: nat)
    requires p < t < p + len
    requires forall r <- first :: p + len <= r.0
    requires forall r <- second :: p2 + len <= r.0
    requires forall r <- both :: p + len <= r.0
    ensures SumsUp(p, p2, first, [(p2, len)] + second, [(p, len)] + both, t)
  {
    DeletedAppend([(p, len)], both, t);
    DeletedAppend([(p2, len)], second, t - p + p2);
    OneDeletion(p, len, t);
    OneDeletion(p2, len, t - p + p2);
    NothingBefore(first, t);
    NothingBefore(second, t - p + p2);
    NothingBefore(both, t);
  }

  /** A parameter the first rewrite kept, before the rest. */
  lemma SumHead(p: nat, p2: nat, len: nat, dropped: bool, first: Removed, second: Removed, both: Removed, t: nat)
    requires p < t && 0 < len
    requires t >= p + len ==> SumsUp(p + len, p2 + len, first, second, both, t)
    requires t < p + len ==> && (forall r <- first :: p + len <= r.0)
                             && (forall r <- second :: p2 + len <= r.0)
                             && (forall r <- both :: p + len <= r.0)
    ensures dropped ==> SumsUp(p, p2, first, [(p2, len)] + second, [(p, len)] + both, t)
    ensures !dropped ==> SumsUp(p, p2, first, second, both, t)
  {
    if t < p + len {
      SumInside(p, p2, len, first, second, both, t);
      SumNothing(p, p2, first, second, both, t);
    } else {
      SumSecond(p, p2, len, first, second, both, t);
    }
  }

  /** A parameter the first rewrite dropped, before the rest. */
  lemma SumDropped(p: nat, p2: nat, len: nat, first: Removed, second: Removed, both: Removed, t: nat)
    requires p < t
    requires t >= p + len ==> SumsUp(p + len, p2, first, second, both, t)
    ensures SumsUp(p, p2, [(p, len)] + first, second, [(p, len)] + both, t)
  {
    if t < p + len {
      assert (p, len) in [(p, len)] + first;
    } else {
      SumFirst(p, p2, len, first, second, both, t);
    }
  }

  lemma {:induction false} LayoutSumsUp(l: Layout, p: nat, p2: nat, d1: Families, d2: Families, t: nat)
    requires p <= t && NoEmptyParam(l)
    ensures SumsUp(p, p2, Gone(l, p, d1), Gone(Left(l, d1), p2, d2), Gone(l, p, Both(d1, d2)), t)
    decreases l
  {
    if l.End? || t == p {
      GoneFrom(l, p, d1);
      GoneFrom(Left(l, d1), p2, d2);
      GoneFrom(l, p, Both(d1, d2));
      SumNothing(p, p2, Gone(l, p, d1), Gone(Left(l, d1), p2, d2), Gone(l, p, Both(d1, d2)), t);
    } else {
      var next := p + l.len;
      var next2 := if Drops(d1, l.key) then p2 else p2 + l.len;
      if t >= next {
        LayoutSumsUp(l.rest, next, next2, d1, d2, t);
      }
      LayoutHead(l, p, p2, d1, d2, t);
    }
  }

  lemma LayoutHead(l: Layout, p: nat, p2: nat, d1: Families, d2: Families, t: nat)
    requires p < t && l.Next? && 0 < l.len
    requires t >= p + l.len ==>
               SumsUp(p + l.len, if Drops(d1, l.key) then p2 else p2 + l.len, Gone(l.rest, p + l.len, d1),
                      Gone(Left(l.rest, d1), if Drops(d1, l.key) then p2 else p2 + l.len, d2),
                      Gone(l.rest, p + l.len, Both(d1, d2)), t)
    ensures SumsUp(p, p2, Gone(l, p, d1), Gone(Left(l, d1), p2, d2), Gone(l, p, Both(d1, d2)), t)
  {
    var next := p + l.len;
    var first, both := Gone(l.rest, next, d1), Gone(l.rest, next, Both(d1, d2));
    if Drops(d1, l.key) {
      SumDropped(p, p2, l.len, first, Gone(Left(l.rest, d1), p2, d2), both, t);
    } else {
      KeptHead(l, p, p2, d1, d2, t);
    }
  }

  lemma KeptHead(l: Layout, p: nat, p2: nat, d1: Families, d2: Families, t: nat)
    requires p < t && l.Next? && 0 < l.len && !Drops(d1, l.key)
    requires t >= p + l.len ==>
               SumsUp(p + l.len, p2 + l.len, Gone(l.rest, p + l.len, d1), Gone(Left(l.rest, d1), p2 + l.len, d2),
                      Gone(l.rest, p + l.len, Both(d1, d2)), t)
    ensures SumsUp(p, p2, Gone(l, p, d1), Gone(Left(l, d1), p2, d2), Gone(l, p, Both(d1, d2)), t)
  {
    var next := p + l.len;
    GoneFrom(l.rest, next, d1);
    GoneFrom(Left(l.rest, d1), p2 + l.len, d2);
    GoneFrom(l.rest, next, Both(d1, d2));
    SumHead(p, p2, l.len, Drops(d2, l.key), Gone(l.rest, next, d1), Gone(Left(l.rest, d1), p2 + l.len, d2),
            Gone(l.rest, next, Both(d1, d2)), t);
  }
}
