/** How one zone's response is judged (DNSQueryResult in src/DNSQueryWork.cpp). */
module Verdict {
  import opened Bytes
  import opened Parser
  import opened Rewriter
  import opened AddressLists

  datatype State = Wait | Error | Match | NotMatch

  datatype Zone = Zone(hasV4: bool, hasV6: bool, denyNXDomain: bool, drop: Families, lists: seq<IpList>)

  const NXDOMAIN := 3

  predicate TakesPart(zone: Zone, qtype: uint16) {
    if qtype == TYPE_A then zone.hasV4
    else if qtype == TYPE_AAAA then zone.hasV6
    else true
  }

  /** A response as the upstream's reader hands it over. */
  datatype Upstream = Upstream(parsed: bool, qtype: uint16, flags: uint16, found: Addresses, data: seq<byte>)

  predicate UsesV4(zone: Zone, asked: uint16) {
    asked == TYPE_A || ((asked == TYPE_SVCB || asked == TYPE_HTTPS) && zone.hasV4)
  }

  predicate UsesV6(zone: Zone, asked: uint16) {
    asked == TYPE_AAAA || ((asked == TYPE_SVCB || asked == TYPE_HTTPS) && zone.hasV6)
  }

  function AllV4(v4: seq<uint32>): seq<Address> {
    seq(|v4|, i requires 0 <= i < |v4| => V4(v4[i]))
  }

  function AllV6(v6: seq<Ipv6>): seq<Address> {
    seq(|v6|, i requires 0 <= i < |v6| => V6(v6[i]))
  }

  /** The addresses of a response that its zone judges. */
  function Judged(zone: Zone, asked: uint16, found: Addresses): seq<Address> {
    (if UsesV4(zone, asked) then AllV4(found.v4) else []) + if UsesV6(zone, asked) then AllV6(found.v6) else []
  }

  function CountAccepted(lists: seq<IpList>, judged: seq<Address>): (n: nat)
    ensures n <= |judged|
  {
    if judged == [] then 0
    else CountAccepted(lists, judged[..|judged| - 1]) + if Accepts(lists, judged[|judged| - 1]) then 1 else 0
  }

  /** The code's test on the two counters, in integer division. */
  predicate Enough(matching: nat, judged: nat) {
    matching != 0 && judged / matching <= 2
  }

  /** The slot's new state, branch by branch. */
  function Judge(zone: Zone, asked: uint16, r: Upstream): (s: State)
    ensures s != Wait
  {
    if r.data == [] then Error
    else if !TakesPart(zone, asked) then NotMatch
    else if !IsIPBearingType(asked) then Match
    else if !r.parsed then NotMatch
    else if !IsIPBearingType(r.qtype) then NotMatch
    else
      var judged := Judged(zone, asked, r.found);
      if judged == [] then
        if zone.denyNXDomain && r.flags % 16 == NXDOMAIN then NotMatch else Match
      else if Enough(CountAccepted(zone.lists, judged), |judged|) then Match
      else NotMatch
  }

  lemma EnoughIsMoreThanAThird(matching: nat, judged: nat)
    ensures Enough(matching, judged) && judged > 0 <==> 3 * matching > judged > 0
  {
    if matching > 0 {
      assert judged == matching * (judged / matching) + judged % matching;
      if judged / matching >= 3 {
        assert matching * (judged / matching) >= matching * 3;
      } else {
        assert matching * (judged / matching) <= matching * 2;
      }
    }
  }

  /** A participating zone claims a response with addresses when more than a third are its own. */
  lemma {:induction false} MatchIsMoreThanAThird(zone: Zone, asked: uint16, r: Upstream)
    requires r.data != [] && r.parsed && TakesPart(zone, asked) && IsIPBearingType(asked) && IsIPBearingType(r.qtype)
    requires Judged(zone, asked, r.found) != []
    ensures var judged := Judged(zone, asked, r.found);
            Judge(zone, asked, r) == Match <==> 3 * CountAccepted(zone.lists, judged) > |judged|
  {
    var judged := Judged(zone, asked, r.found);
    EnoughIsMoreThanAThird(CountAccepted(zone.lists, judged), |judged|);
  }

  // ----- the whole verdict

  /** Which of the addresses the zone's lists accept. */
  function Accepted(lists: seq<IpList>, addresses: seq<Address>): set<nat> {
    set i: nat | i < |addresses| && Accepts(lists, addresses[i])
  }

  lemma {:induction false} CountsAccepted(lists: seq<IpList>, addresses: seq<Address>)
    ensures CountAccepted(lists, addresses) == |Accepted(lists, addresses)|
  {
    hide Accepts;
    if addresses != [] {
      var init, n := addresses[..|addresses| - 1], |addresses| - 1;
      CountsAccepted(lists, init);
      var last: set<nat> := if Accepts(lists, addresses[n]) then {n} else {};
      assert Accepted(lists, addresses) == Accepted(lists, init) + last;
    }
  }

  /** Of type A, AAAA, SVCB or HTTPS. */
  predicate CarriesAddresses(qtype: uint16) {
    qtype in {1, 28, 64, 65}
  }

  /**
   The verdict, for every zone, query type and answer: an error exactly when the answer is empty, and a match exactly
   when the zone takes part and, for a type that carries addresses, the answer is understood, is itself
   of such a type, and either holds no address to judge and is no distrusted NXDOMAIN (response code 3), or more than
   a third of those judged are the zone's.
   */
  lemma {:induction false} VerdictExactly(zone: Zone, asked: uint16, r: Upstream)
    ensures Judge(zone, asked, r) == Error <==> r.data == []
    ensures
      var service := asked == 64 || asked == 65;
      var v4, v6 := asked == 1 || (service && zone.hasV4), asked == 28 || (service && zone.hasV6);
      var judged := (if v4 then |r.found.v4| else 0) + if v6 then |r.found.v6| else 0;
      var accepted := (if v4 then |Accepted(zone.lists, AllV4(r.found.v4))| else 0) +
                      if v6 then |Accepted(zone.lists, AllV6(r.found.v6))| else 0;
      Judge(zone, asked, r) == Match <==>
      && r.data != [] && (asked == 1 ==> zone.hasV4) && (asked == 28 ==> zone.hasV6)
      && (CarriesAddresses(asked) ==>
            && r.parsed && CarriesAddresses(r.qtype)
            && if judged == 0 then !(zone.denyNXDomain && r.flags % 16 == 3) else 3 * accepted > judged)
  {
    hide CountAccepted, Accepted, Enough;
    CountsAccepted(zone.lists, AllV4(r.found.v4));
    CountsAccepted(zone.lists, AllV6(r.found.v6));
    var judged := Judged(zone, asked, r.found);
    NoneCounted(zone.lists);
    CountAppend(zone.lists, if UsesV4(zone, asked) then AllV4(r.found.v4) else [], if UsesV6(zone, asked) then AllV6(r.found.v6) else []);
    EnoughIsMoreThanAThird(CountAccepted(zone.lists, judged), |judged|);
  }

  lemma NoneCounted(lists: seq<IpList>)
    ensures CountAccepted(lists, []) == 0
  {
  }

  // ----- the order of addresses

  lemma {:induction false} CountAppend(lists: seq<IpList>, a: seq<Address>, b: seq<Address>)
    ensures CountAccepted(lists, a + b) == CountAccepted(lists, a) + CountAccepted(lists, b)
  {
    if b == [] {
      assert a + b == a;
    } else {
      assert (a + b)[..|a + b| - 1] == a + b[..|b| - 1];
      CountAppend(lists, a, b[..|b| - 1]);
    }
  }

  function But(a: seq<Address>, i: nat): (r: seq<Address>)
    requires i < |a|
    ensures |r| == |a| - 1
  {
    a[..i] + a[i + 1..]
  }

  lemma SplitAt(a: seq<Address>, i: nat)
    requires i < |a|
    ensures multiset(But(a, i)) == multiset(a) - multiset{a[i]}
  {
    assert a == a[..i] + [a[i]] + a[i + 1..];
  }

  lemma CountWithout(lists: seq<IpList>, a: seq<Address>, i: nat)
    requires i < |a|
    ensures CountAccepted(lists, a) == CountAccepted(lists, But(a, i)) + if Accepts(lists, a[i]) then 1 else 0
  {
    CountAppend(lists, a[..i], a[i + 1..]);
    CountAppend(lists, a[..i], [a[i]]);
    CountAppend(lists, a[..i] + [a[i]], a[i + 1..]);
    assert a == a[..i] + [a[i]] + a[i + 1..];
    assert [a[i]][..0] == [];
  }

  lemma {:induction false} CountOfSameAddresses(lists: seq<IpList>, a: seq<Address>, b: seq<Address>)
    requires multiset(a) == multiset(b)
    ensures CountAccepted(lists, a) == CountAccepted(lists, b)
    decreases |a|
  {
    if a == [] {
      assert |multiset(b)| == 0;
    } else {
      assert a[0] in multiset(b);
      var i :| 0 <= i < |b| && b[i] == a[0];
      SplitAt(a, 0);
      SplitAt(b, i);
      CountOfSameAddresses(lists, But(a, 0), But(b, i));
      CountWithout(lists, a, 0);
      CountWithout(lists, b, i);
    }
  }

  lemma {:induction false} CountV4(v4: seq<uint32>, x: Address)
    ensures multiset(AllV4(v4))[x] == if x.V4? then multiset(v4)[x.n] else 0
  {
    if v4 != [] {
      var init := v4[..|v4| - 1];
      CountV4(init, x);
      assert v4 == init + [v4[|v4| - 1]] && AllV4(v4) == AllV4(init) + [V4(v4[|v4| - 1])];
    }
  }

  lemma {:induction false} CountV6(v6: seq<Ipv6>, x: Address)
    ensures multiset(AllV6(v6))[x] == if x.V6? then multiset(v6)[x.bytes] else 0
  {
    if v6 != [] {
      var init := v6[..|v6| - 1];
      CountV6(init, x);
      assert v6 == init + [v6[|v6| - 1]] && AllV6(v6) == AllV6(init) + [V6(v6[|v6| - 1])];
    }
  }

  lemma SameJudged(zone: Zone, asked: uint16, a: Addresses, b: Addresses)
    requires multiset(a.v4) == multiset(b.v4) && multiset(a.v6) == multiset(b.v6)
    ensures multiset(Judged(zone, asked, a)) == multiset(Judged(zone, asked, b))
  {
    forall x: Address
      ensures multiset(AllV4(a.v4))[x] == multiset(AllV4(b.v4))[x]
      ensures multiset(AllV6(a.v6))[x] == multiset(AllV6(b.v6))[x]
    {
      CountV4(a.v4, x);
      CountV4(b.v4, x);
      CountV6(a.v6, x);
      CountV6(b.v6, x);
    }
    assert multiset(AllV4(a.v4)) == multiset(AllV4(b.v4)) && multiset(AllV6(a.v6)) == multiset(AllV6(b.v6));
  }

  /** Two responses that differ in the order of their addresses are judged alike. */
  lemma {:induction false} VerdictIgnoresOrder(zone: Zone, asked: uint16, r: Upstream, found: Addresses)
    requires multiset(r.found.v4) == multiset(found.v4) && multiset(r.found.v6) == multiset(found.v6)
    ensures Judge(zone, asked, r.(found := found)) == Judge(zone, asked, r)
  {
    var a, b := Judged(zone, asked, r.found), Judged(zone, asked, found);
    SameJudged(zone, asked, r.found, found);
    assert |a| == |multiset(a)| == |multiset(b)| == |b|;
    CountOfSameAddresses(zone.lists, a, b);
  }

  // ----- the loops

  method CountFamily(lists: seq<IpList>, addresses: seq<Address>, judged0: nat, matching0: nat)
    returns (judged: nat, matching: nat)
    ensures judged == judged0 + |addresses| && matching == matching0 + CountAccepted(lists, addresses)
  {
    judged, matching := judged0, matching0;
    for i := 0 to |addresses|
      invariant judged == judged0 + i && matching == matching0 + CountAccepted(lists, addresses[..i])
    {
      assert addresses[..i + 1][..i] == addresses[..i];
      judged := judged + 1;
      var accepted := ZoneCheckIsMatch(lists, addresses[i]);
      if accepted {
        matching := matching + 1;
      }
    }
    assert addresses[..|addresses|] == addresses;
  }

  method CountJudged(zone: Zone, asked: uint16, found: Addresses) returns (judged: nat, matching: nat)
    ensures judged == |Judged(zone, asked, found)| && matching == CountAccepted(zone.lists, Judged(zone, asked, found))
  {
    judged, matching := 0, 0;
    if UsesV4(zone, asked) {
      judged, matching := CountFamily(zone.lists, AllV4(found.v4), judged, matching);
    }
    if UsesV6(zone, asked) {
      judged, matching := CountFamily(zone.lists, AllV6(found.v6), judged, matching);
    }
    CountAppend(zone.lists, if UsesV4(zone, asked) then AllV4(found.v4) else [], if UsesV6(zone, asked) then AllV6(found.v6) else []);
  }

  method JudgeResponse(zone: Zone, asked: uint16, r: Upstream) returns (s: State)
    ensures s == Judge(zone, asked, r)
  {
    if |r.data| == 0 {
      return Error;
    }
    if !TakesPart(zone, asked) {
      return NotMatch;
    }
    if !IsIPBearingType(asked) {
      return Match;
    }
    if !r.parsed || !IsIPBearingType(r.qtype) {
      return NotMatch;
    }
    var judged, matching := CountJudged(zone, asked, r.found);
    if judged == 0 {
      if zone.denyNXDomain && r.flags % 16 == NXDOMAIN {
        return NotMatch;
      }
      return Match;
    }
    if matching != 0 && judged / matching <= 2 {
      return Match;
    }
    return NotMatch;
  }
}
