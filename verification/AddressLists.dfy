/** Lookup in sorted address lists, and the first-match lists of a zone (src/ConfigType.cpp). */
module AddressLists {
  import opened Bytes
  import opened Cidr

  // ----- the search, on the signs of the comparisons

  /**
   What the loop over nBegin, nEnd comes to, from begin and end: did it meet an entry that
   matches? signs[i] is MatchCompare of entry i.
   */
  function Search(signs: seq<int>, begin: nat, end: nat): bool
    requires begin <= end < |signs|
    decreases end - begin
  {
    var mid := (begin + end) / 2;
    if signs[mid] < 0 then
      if end == mid then signs[begin] == 0
      else if begin == mid then false
      else Search(signs, begin, mid)
    else if signs[mid] > 0 then
      if begin == mid then signs[end] == 0
      else Search(signs, mid, end)
    else true
  }

  function Hits(signs: seq<int>): bool {
    signs != [] && Search(signs, 0, |signs| - 1)
  }

  predicate Any(signs: seq<int>) {
    exists i :: 0 <= i < |signs| && signs[i] == 0
  }

  /** On any list, what the search meets is an entry. */
  lemma {:induction false} HitIsEntry(signs: seq<int>, begin: nat, end: nat)
    requires begin <= end < |signs| && Search(signs, begin, end)
    ensures exists i :: begin <= i <= end && signs[i] == 0
    decreases end - begin
  {
    var mid := (begin + end) / 2;
    if signs[mid] < 0 && begin < mid < end {
      HitIsEntry(signs, begin, mid);
    } else if signs[mid] > 0 && begin < mid {
      HitIsEntry(signs, mid, end);
    }
  }

  /** The entries the search looks at when the first rank entries begin at or below the address. */
  function Probes(begin: nat, end: nat, rank: nat): set<nat>
    requires begin <= end
    decreases end - begin
  {
    var mid := (begin + end) / 2;
    {mid} +
    if mid >= rank then
      if end == mid then {begin} else if begin == mid then {} else Probes(begin, mid, rank)
    else if begin == mid then {end}
    else Probes(mid, end, rank)
  }

  /** Exactly the entries from rank on begin above the address. */
  ghost predicate Ranked(signs: seq<int>, rank: nat) {
    forall i :: 0 <= i < |signs| ==> (signs[i] < 0 <==> rank <= i)
  }

  /** On a sorted list the search answers yes exactly when one of its probes matches. */
  lemma {:induction false} SearchIsProbes(signs: seq<int>, begin: nat, end: nat, rank: nat)
    requires begin <= end < |signs| && Ranked(signs, rank)
    ensures Search(signs, begin, end) <==> exists i <- Probes(begin, end, rank) :: i < |signs| && signs[i] == 0
    decreases end - begin
  {
    var mid := (begin + end) / 2;
    assert mid in Probes(begin, end, rank);
    if signs[mid] < 0 && begin < mid < end {
      SearchIsProbes(signs, begin, mid, rank);
    } else if signs[mid] > 0 && begin < mid {
      SearchIsProbes(signs, mid, end, rank);
    }
  }

  /** The last entry that begins at or below the address is always looked at. */
  lemma {:induction false} LastIsProbed(begin: nat, end: nat, rank: nat)
    requires begin < rank <= end + 1
    ensures rank - 1 in Probes(begin, end, rank)
    decreases end - begin
  {
    var mid := (begin + end) / 2;
    if mid >= rank {
      LastIsProbed(begin, mid, rank);
    } else if begin < mid {
      LastIsProbed(mid, end, rank);
    }
  }

  // ----- lists of blocks

  function Signs(blocks: seq<Block>, x: nat): (r: seq<int>)
    ensures |r| == |blocks|
  {
    seq(|blocks|, i requires 0 <= i < |blocks| => blocks[i].Compare(x))
  }

  ghost predicate Sorted(blocks: seq<Block>) {
    forall i, j :: 0 <= i < j < |blocks| ==> blocks[i].lo <= blocks[j].lo
  }

  ghost predicate AllAligned(blocks: seq<Block>) {
    forall b <- blocks :: b.Aligned()
  }

  ghost predicate NoneInside(blocks: seq<Block>) {
    forall a <- blocks, b <- blocks :: !a.StrictlyContains(b)
  }

  /** The number of entries that begin at or below x. */
  function Rank(blocks: seq<Block>, x: nat): nat {
    if blocks == [] then 0 else Rank(blocks[..|blocks| - 1], x) + if blocks[|blocks| - 1].lo <= x then 1 else 0
  }

  lemma {:induction false} RankSplits(blocks: seq<Block>, x: nat)
    requires Sorted(blocks)
    ensures Rank(blocks, x) <= |blocks|
    ensures forall i :: 0 <= i < |blocks| ==> (blocks[i].lo <= x <==> i < Rank(blocks, x))
  {
    if blocks != [] {
      var init := blocks[..|blocks| - 1];
      RankSplits(init, x);
      if blocks[|blocks| - 1].lo <= x && init != [] {
        assert blocks[|init| - 1].lo <= x && init[|init| - 1] == blocks[|init| - 1];
      }
      assert forall i :: 0 <= i < |init| ==> blocks[i] == init[i];
    }
  }

  ghost predicate Member(blocks: seq<Block>, x: nat) {
    exists b <- blocks :: b.Contains(x)
  }

  lemma AnyIsMember(blocks: seq<Block>, x: nat)
    ensures Any(Signs(blocks, x)) <==> Member(blocks, x)
  {
    if Member(blocks, x) {
      var b :| b in blocks && b.Contains(x);
      var i :| 0 <= i < |blocks| && blocks[i] == b;
      assert Signs(blocks, x)[i] == 0;
    }
    if Any(Signs(blocks, x)) {
      var i :| 0 <= i < |blocks| && Signs(blocks, x)[i] == 0;
      assert blocks[i] in blocks;
    }
  }

  /** A hit is never wrong, whatever the list. */
  lemma {:induction false} HitIsMember(blocks: seq<Block>, x: nat)
    requires Hits(Signs(blocks, x))
    ensures Member(blocks, x)
  {
    HitIsEntry(Signs(blocks, x), 0, |blocks| - 1);
    AnyIsMember(blocks, x);
  }

  /** Some entry the search looks at, given only the list's length and the address' rank, contains it. */
  ghost predicate Probed(blocks: seq<Block>, x: nat)
    requires blocks != []
  {
    exists i <- Probes(0, |blocks| - 1, Rank(blocks, x)) :: i < |blocks| && blocks[i].Contains(x)
  }

  lemma HitsIsProbed(blocks: seq<Block>, x: nat)
    requires Sorted(blocks) && blocks != []
    ensures Hits(Signs(blocks, x)) <==> Probed(blocks, x)
  {
    RankSplits(blocks, x);
    SearchIsProbes(Signs(blocks, x), 0, |blocks| - 1, Rank(blocks, x));
    hide Probes, Search, Rank, Sorted;
    assert forall i :: 0 <= i < |blocks| ==> (Signs(blocks, x)[i] == 0 <==> blocks[i].Contains(x));
  }

  /**
   On a sorted list the search agrees with linear lookup exactly when no entry contains the
   address or one it looks at does.
   */
  lemma {:induction false} SearchIsExactWhen(blocks: seq<Block>, x: nat)
    requires Sorted(blocks) && blocks != []
    ensures Hits(Signs(blocks, x)) <==> Probed(blocks, x)
    ensures (Hits(Signs(blocks, x)) <==> Member(blocks, x)) <==> (Member(blocks, x) ==> Probed(blocks, x))
  {
    hide Hits, Probed, Member, Signs, Sorted;
    HitsIsProbed(blocks, x);
    if Hits(Signs(blocks, x)) {
      HitIsMember(blocks, x);
    }
  }

  /** The entry that contains x, if any, may be taken to be the last that begins at or below x. */
  lemma LastContains(blocks: seq<Block>, x: nat)
    requires Sorted(blocks) && AllAligned(blocks) && NoneInside(blocks) && Member(blocks, x)
    ensures 0 < Rank(blocks, x) <= |blocks| && blocks[Rank(blocks, x) - 1].Contains(x)
  {
    RankSplits(blocks, x);
    var b :| b in blocks && b.Contains(x);
    var i :| 0 <= i < |blocks| && blocks[i] == b;
    var last := blocks[Rank(blocks, x) - 1];
    assert last in blocks && b.lo <= last.lo <= x;
    if last.size <= b.size {
      NestedOrDisjoint(last, b);
    } else {
      NestedOrDisjoint(b, last);
    }
  }

  /** Without an entry strictly inside another, the search is linear lookup. */
  lemma {:induction false} SearchIsMember(blocks: seq<Block>, x: nat)
    requires Sorted(blocks) && AllAligned(blocks) && NoneInside(blocks)
    ensures Hits(Signs(blocks, x)) <==> Member(blocks, x)
  {
    if Hits(Signs(blocks, x)) {
      HitIsMember(blocks, x);
    } else if Member(blocks, x) {
      LastContains(blocks, x);
      LastIsProbed(0, |blocks| - 1, Rank(blocks, x));
      SearchIsExactWhen(blocks, x);
    }
  }

  /** Where entry i ends, or where the entry behind r begins, if that comes first. */
  function Reach(blocks: seq<Block>, r: nat, i: nat): nat
    requires i <= r < |blocks|
  {
    var end := blocks[i].lo + blocks[i].size;
    if r + 1 < |blocks| && blocks[r + 1].lo < end then blocks[r + 1].lo else end
  }

  /**
   Of the addresses for which entry r is the last to begin at or below them, those in an entry
   before it are also in one that the search looks at.
   */
  ghost predicate Covered(blocks: seq<Block>, r: nat)
    requires r < |blocks|
  {
    forall i: nat {:trigger Reach(blocks, r, i)} | i <= r && blocks[r].lo < Reach(blocks, r, i) ::
      exists j <- Probes(0, |blocks| - 1, r + 1) :: j <= r && Reach(blocks, r, i) <= blocks[j].lo + blocks[j].size
  }

  ghost predicate Exact(blocks: seq<Block>, x: nat) {
    Hits(Signs(blocks, x)) <==> Member(blocks, x)
  }

  lemma CoveredIsExact(blocks: seq<Block>, x: nat)
    requires Sorted(blocks) && blocks != [] && forall r: nat :: r < |blocks| ==> Covered(blocks, r)
    ensures Exact(blocks, x)
  {
    SearchIsExactWhen(blocks, x);
    if Member(blocks, x) {
      RankSplits(blocks, x);
      var b :| b in blocks && b.Contains(x);
      var i: nat :| i < |blocks| && blocks[i] == b;
      var r := Rank(blocks, x) - 1;
      assert Covered(blocks, r) && blocks[r].lo <= x < Reach(blocks, r, i);
      var j :| j in Probes(0, |blocks| - 1, r + 1) && j <= r && Reach(blocks, r, i) <= blocks[j].lo + blocks[j].size;
      assert blocks[j].Contains(x);
    }
  }

  lemma ExactIsCovered(blocks: seq<Block>, r: nat)
    requires Sorted(blocks) && r < |blocks| && forall x: nat :: Exact(blocks, x)
    ensures Covered(blocks, r)
  {
    forall i: nat | i <= r && blocks[r].lo < Reach(blocks, r, i)
      ensures exists j <- Probes(0, |blocks| - 1, r + 1) :: j <= r && Reach(blocks, r, i) <= blocks[j].lo + blocks[j].size
    {
      var x := Reach(blocks, r, i) - 1;
      RankSplits(blocks, x);
      assert Rank(blocks, x) == r + 1;
      assert blocks[i] in blocks && blocks[i].Contains(x);
      assert Exact(blocks, x);
      SearchIsExactWhen(blocks, x);
      var j :| j in Probes(0, |blocks| - 1, r + 1) && j < |blocks| && blocks[j].Contains(x);
      assert j <= r;
    }
  }

  /** A sorted list is searched rightly for every address exactly when every entry of it is covered so. */
  lemma {:induction false} ListIsExactWhen(blocks: seq<Block>)
    requires Sorted(blocks) && blocks != []
    ensures (forall x: nat :: Exact(blocks, x)) <==> (forall r: nat :: r < |blocks| ==> Covered(blocks, r))
  {
    if forall r: nat :: r < |blocks| ==> Covered(blocks, r) {
      forall x: nat ensures Exact(blocks, x) {
        CoveredIsExact(blocks, x);
      }
    }
    if forall x: nat :: Exact(blocks, x) {
      forall r: nat | r < |blocks| ensures Covered(blocks, r) {
        ExactIsCovered(blocks, r);
      }
    }
  }

  /** With 10.0.0.0/8, 10.1.0.0/16 and 10.2.0.0/16, the search does not find 10.3.0.1. */
  lemma {:induction false} NestedEntryHidesOuter()
    ensures var outer := Block(0x0A00_0000, 0x100_0000);
            var blocks := [outer, Block(0x0A01_0000, 0x1_0000), Block(0x0A02_0000, 0x1_0000)];
            Sorted(blocks) && Member(blocks, 0x0A03_0001) && !Hits(Signs(blocks, 0x0A03_0001))
  {
    var outer := Block(0x0A00_0000, 0x100_0000);
    var blocks := [outer, Block(0x0A01_0000, 0x1_0000), Block(0x0A02_0000, 0x1_0000)];
    assert outer in blocks && outer.Contains(0x0A03_0001);
    assert Signs(blocks, 0x0A03_0001) == [0, 1, 1];
    assert Search([0, 1, 1], 0, 2) == Search([0, 1, 1], 1, 2);
  }

  // ----- a loaded list

  datatype Address = V4(n: uint32) | V6(bytes: Ipv6)

  /** One ipList file: entries of one family, sorted, and how a match counts. */
  datatype IpList = IpList(family: int, deny: bool, inverse: bool, items: seq<Item>, items6: seq<Item6>) {

    function SignsFor(a: Address): seq<int> {
      if a.V4? then seq(|items|, i requires 0 <= i < |items| => items[i].MatchCompare(a.n))
      else seq(|items6|, i requires 0 <= i < |items6| => MemCmp(MaskedBytes(a.bytes, items6[i].prefix), items6[i].ip))
    }

    /** What CheckIsMatch answers. */
    function Matches(a: Address): bool {
      Hits(SignsFor(a)) != inverse
    }

    function Blocks(v4: bool): seq<Block> {
      if v4 then seq(|items|, i requires 0 <= i < |items| => BlockOf(items[i]))
      else seq(|items6|, i requires 0 <= i < |items6| => BlockOf6(items6[i]))
    }

    /** As LoadFile leaves it: masked entries, sorted by address. */
    ghost predicate Loaded() {
      && (forall i <- items :: Normal(i)) && (forall i <- items6 :: Normal6(i))
      && Sorted(Blocks(true)) && Sorted(Blocks(false))
    }
  }

  function Number(a: Address): nat {
    if a.V4? then a.n else Value(a.bytes)
  }

  lemma SignsOfBlocks(l: IpList, a: Address)
    requires l.Loaded()
    ensures l.SignsFor(a) == Signs(l.Blocks(a.V4?), Number(a))
    ensures AllAligned(l.Blocks(a.V4?))
  {
    if a.V4? {
      forall i | 0 <= i < |l.items| ensures l.SignsFor(a)[i] == l.Blocks(true)[i].Compare(a.n) && l.Blocks(true)[i].Aligned() {
        assert l.items[i] in l.items;
        MatchCompareIsCompare(l.items[i], a.n);
        BlockAligned(l.items[i]);
      }
    } else {
      forall i | 0 <= i < |l.items6|
        ensures l.SignsFor(a)[i] == l.Blocks(false)[i].Compare(Value(a.bytes)) && l.Blocks(false)[i].Aligned()
      {
        assert l.items6[i] in l.items6;
        MatchCompareIsCompare6(l.items6[i], a.bytes);
        BlockAligned6(l.items6[i]);
      }
    }
  }

  /**
   A loaded list without an entry strictly inside another: CheckIsMatch, of either family, is
   "some entry contains the address", negated for an inverse list.
   */
  lemma {:induction false} MatchesIsMember(l: IpList, a: Address)
    requires l.Loaded() && NoneInside(l.Blocks(a.V4?))
    ensures l.Matches(a) <==> (Member(l.Blocks(a.V4?), Number(a)) <==> !l.inverse)
  {
    SignsOfBlocks(l, a);
    SearchIsMember(l.Blocks(a.V4?), Number(a));
  }

  /** Nesting or not, a match of a plain list and a non-match of an inverse one mean membership. */
  lemma {:induction false} MatchIsSound(l: IpList, a: Address)
    requires l.Loaded() && l.Matches(a) != l.inverse
    ensures Member(l.Blocks(a.V4?), Number(a))
  {
    SignsOfBlocks(l, a);
    HitIsMember(l.Blocks(a.V4?), Number(a));
  }

  // ----- the loops

  method CheckIsMatch4(l: IpList, x: uint32) returns (r: bool)
    ensures r == l.Matches(V4(x))
  {
    if |l.items| == 0 {
      return l.inverse;
    }
    ghost var signs := l.SignsFor(V4(x));
    var begin, end := 0, |l.items| - 1;
    var hit := false;
    while true
      invariant 0 <= begin <= end < |l.items| && !hit
      invariant Hits(signs) == Search(signs, begin, end)
      decreases end - begin
    {
      var mid := (begin + end) / 2;
      var cmp := l.items[mid].MatchCompare(x);
      if cmp < 0 {
        if end != mid {
          end := mid;
        } else {
          hit := l.items[begin].MatchCompare(x) == 0;
          break;
        }
      } else if cmp > 0 {
        if begin != mid {
          begin := mid;
        } else {
          hit := l.items[end].MatchCompare(x) == 0;
          break;
        }
      } else {
        hit := true;
        break;
      }
      if begin == end {
        break;
      }
    }
    r := if l.inverse then !hit else hit;
  }

  method CheckIsMatch6(l: IpList, x: Ipv6) returns (r: bool)
    ensures r == l.Matches(V6(x))
  {
    if |l.items6| == 0 {
      return l.inverse;
    }
    ghost var signs := l.SignsFor(V6(x));
    var begin, end := 0, |l.items6| - 1;
    var hit := false;
    while true
      invariant 0 <= begin <= end < |l.items6| && !hit
      invariant Hits(signs) == Search(signs, begin, end)
      decreases end - begin
    {
      var mid := (begin + end) / 2;
      var cmp := MatchCompare6(l.items6[mid], x);
      if cmp < 0 {
        if end != mid {
          end := mid;
        } else {
          cmp := MatchCompare6(l.items6[begin], x);
          hit := cmp == 0;
          break;
        }
      } else if cmp > 0 {
        if begin != mid {
          begin := mid;
        } else {
          cmp := MatchCompare6(l.items6[end], x);
          hit := cmp == 0;
          break;
        }
      } else {
        hit := true;
        break;
      }
      if begin == end {
        break;
      }
    }
    r := if l.inverse then !hit else hit;
  }

  // ----- a zone

  function FamilyOf(a: Address): int {
    if a.V4? then 4 else 6
  }

  /** The first list of the address' family that matches decides; deny turns it down. */
  function Accepts(lists: seq<IpList>, a: Address): bool {
    if lists == [] then false
    else if lists[0].family == FamilyOf(a) && lists[0].Matches(a) then !lists[0].deny
    else Accepts(lists[1..], a)
  }

  /** List k, of family 4 or 6, is the first that matches. */
  ghost predicate Decides(lists: seq<IpList>, a: Address, k: nat) {
    && k < |lists| && lists[k].family == (if a.V4? then 4 else 6) && lists[k].Matches(a)
    && forall i :: 0 <= i < k ==> lists[i].family != (if a.V4? then 4 else 6) || !lists[i].Matches(a)
  }

  lemma DecidesLater(lists: seq<IpList>, a: Address, k: nat)
    requires lists != [] && (lists[0].family != (if a.V4? then 4 else 6) || !lists[0].Matches(a))
    ensures !Decides(lists, a, 0) && (Decides(lists, a, k + 1) <==> Decides(lists[1..], a, k))
  {
    assert forall i :: 0 <= i < |lists| - 1 ==> lists[1..][i] == lists[i + 1];
    if Decides(lists[1..], a, k) {
      assert forall i :: 0 < i < k + 1 ==> lists[i] == lists[1..][i - 1];
    }
  }

  lemma {:induction false} AcceptsIsFirstMatch(lists: seq<IpList>, a: Address)
    ensures Accepts(lists, a) <==> exists k: nat :: Decides(lists, a, k) && !lists[k].deny
  {
    if lists != [] {
      var rest := lists[1..];
      AcceptsIsFirstMatch(rest, a);
      if lists[0].family == FamilyOf(a) && lists[0].Matches(a) {
        assert Decides(lists, a, 0);
      } else {
        hide Decides;
        if k: nat :| Decides(rest, a, k) && k < |rest| && !rest[k].deny {
          DecidesLater(lists, a, k);
          assert lists[k + 1] == rest[k];
        }
        if k: nat :| Decides(lists, a, k) && k < |lists| && !lists[k].deny {
          DecidesLater(lists, a, if k > 0 then k - 1 else 0);
          assert rest[k - 1] == lists[k];
        }
      }
    }
  }

  method ZoneCheckIsMatch(lists: seq<IpList>, a: Address) returns (r: bool)
    ensures r == Accepts(lists, a)
  {
    for i := 0 to |lists|
      invariant Accepts(lists, a) == Accepts(lists[i..], a)
    {
      if lists[i].family == FamilyOf(a) {
        var m;
        if a.V4? {
          m := CheckIsMatch4(lists[i], a.n);
        } else {
          m := CheckIsMatch6(lists[i], a.bytes);
        }
        if m {
          return !lists[i].deny;
        }
      }
    }
    r := false;
  }
}
