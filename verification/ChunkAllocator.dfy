/**
 `Chunks` of platform/chunk/chunk.go: check the request, level the nodes over the offered
 hosts, pair the hosts and hand out ports.
 */
module ChunkAllocator {
  import opened Common
  import opened HostPairing
  import opened HostFill
  import opened ChunkPlan

  datatype Offer = Offer(hostname: string, mem: real, cpus: real, ports: seq<int>)

  datatype HostRes = HostRes(name: string, count: int)

  datatype Failure = BadMasterNum | NotEnoughHost | Not3Not4 | NotEnoughResource | BadDist

  /** `Panicked` is the index panic of a host that is given more nodes than it has ports. */
  datatype Outcome = Planned(chunks: seq<Chunk>) | Failed(failure: Failure) | Panicked

  // ---------------------------------------------------------------- capacities

  /** Go's conversion of a float to an int, which drops the fraction. */
  function Trunc(x: real): int {
    if x >= 0.0 then x.Floor else -((-x).Floor)
  }

  function MinInt(a: int, b: int): int {
    if a > b then b else a
  }

  /** Nodes an offer can run, rounded toward zero to an even number. */
  function NodeCapacity(o: Offer, mem: real, cpu: real): (c: int)
    requires mem > 0.0 && cpu > 0.0
    ensures c % 2 == 0 && c <= |o.ports|
  {
    var byMem := Trunc((o.mem * 100.0) / (mem * 100.0));
    var byCpu := Trunc((o.cpus * 100.0) / (cpu * 100.0));
    var least := MinInt(MinInt(byMem, byCpu), |o.ports|);
    if least >= 0 then least / 2 * 2 else -((-least) / 2 * 2)
  }

  /** An offer has the memory, the cpus and the ports of `n` nodes. */
  predicate CanRun(o: Offer, mem: real, cpu: real, n: int) {
    n as real * mem <= o.mem && n as real * cpu <= o.cpus && n <= |o.ports|
  }

  lemma {:induction false} TruncIsFloor(have: real, need: real, n: int)
    requires need > 0.0
    ensures n > 0 ==> (n <= Trunc((have * 100.0) / (need * 100.0)) <==> n as real * need <= have)
    ensures have >= 0.0 && n <= 0 ==> n as real * need <= have
    ensures have >= 0.0 ==> Trunc((have * 100.0) / (need * 100.0)) >= 0
  {
    var x := (have * 100.0) / (need * 100.0);
    assert x == have / need;
    QuotientAtLeast(have, need, n as real, x);
    QuotientAtLeast(have, need, 0.0, x);
  }

  lemma {:induction false} QuotientAtLeast(a: real, d: real, n: real, x: real)
    requires d > 0.0 && x == a / d
    ensures n <= x <==> n * d <= a
  {
    assert a == x * d;
    assert n <= x ==> n * d <= x * d;
    assert n > x ==> n * d > x * d;
  }

  /** The capacity decides which even numbers of nodes an offer has the resources for. */
  lemma {:induction false} CapacityDecides(o: Offer, mem: real, cpu: real, n: int)
    requires mem > 0.0 && cpu > 0.0 && n > 0 && n % 2 == 0
    ensures n <= NodeCapacity(o, mem, cpu) <==> CanRun(o, mem, cpu, n)
  {
    hide Trunc;
    TruncIsFloor(o.mem, mem, n);
    TruncIsFloor(o.cpus, cpu, n);
  }

  /** It is the largest even number of nodes that memory, cpus and ports are there for. */
  lemma {:induction false} CapacityIsLargest(o: Offer, mem: real, cpu: real)
    requires mem > 0.0 && cpu > 0.0 && o.mem >= 0.0 && o.cpus >= 0.0
    ensures
      var c := NodeCapacity(o, mem, cpu);
      c >= 0 && c % 2 == 0 && CanRun(o, mem, cpu, c) && !CanRun(o, mem, cpu, c + 2)
  {
    hide Trunc;
    var c := NodeCapacity(o, mem, cpu);
    TruncIsFloor(o.mem, mem, 0);
    TruncIsFloor(o.cpus, cpu, 0);
    assert c >= 0;
    hide NodeCapacity;
    CapacityDecides(o, mem, cpu, c + 2);
    if c > 0 {
      CapacityDecides(o, mem, cpu, c);
    }
  }

  ghost predicate DistinctHosts(offers: seq<Offer>) {
    forall i, j :: 0 <= i < j < |offers| ==> offers[i].hostname != offers[j].hostname
  }

  method MapIntoHostRes(offers: seq<Offer>, mem: real, cpu: real) returns (hrs: seq<HostRes>)
    requires mem > 0.0 && cpu > 0.0
    ensures |hrs| == |offers|
    ensures forall i :: 0 <= i < |hrs| ==> hrs[i] == HostRes(offers[i].hostname, NodeCapacity(offers[i], mem, cpu))
  {
    hrs := [];
    for k := 0 to |offers|
      invariant |hrs| == k
      invariant forall i :: 0 <= i < k ==> hrs[i] == HostRes(offers[i].hostname, NodeCapacity(offers[i], mem, cpu))
    {
      hrs := hrs + [HostRes(offers[k].hostname, NodeCapacity(offers[k], mem, cpu))];
    }
  }

  method MapIntoPortsMap(offers: seq<Offer>) returns (ports: map<string, seq<int>>)
    requires DistinctHosts(offers)
    ensures forall i :: 0 <= i < |offers| ==>
      offers[i].hostname in ports && ports[offers[i].hostname] == offers[i].ports
    ensures forall h :: h in ports ==> exists i :: 0 <= i < |offers| && offers[i].hostname == h
  {
    ports := map[];
    for k := 0 to |offers|
      invariant forall i :: 0 <= i < k ==> offers[i].hostname in ports && ports[offers[i].hostname] == offers[i].ports
      invariant forall h :: h in ports ==> exists i :: 0 <= i < k && offers[i].hostname == h
    {
      ports := ports[offers[k].hostname := offers[k].ports];
    }
  }

  method GetHosts(offers: seq<Offer>) returns (hosts: set<string>)
    requires DistinctHosts(offers)
    ensures |hosts| == |offers| && hosts == set i | 0 <= i < |offers| :: offers[i].hostname
  {
    hosts := {};
    for k := 0 to |offers|
      invariant |hosts| == k && hosts == set i | 0 <= i < k :: offers[i].hostname
    {
      assert offers[k].hostname !in hosts;
      hosts := hosts + {offers[k].hostname};
    }
  }

  ghost function TotalCapacity(hrs: seq<HostRes>): int {
    if hrs == [] then 0 else TotalCapacity(hrs[..|hrs| - 1]) + hrs[|hrs| - 1].count
  }

  method CheckIfEnough(hrs: seq<HostRes>, need: int) returns (ok: bool)
    ensures ok <==> TotalCapacity(hrs) >= need
  {
    var sum := 0;
    for k := 0 to |hrs|
      invariant sum == TotalCapacity(hrs[..k])
    {
      assert hrs[..k + 1][..k] == hrs[..k];
      sum := sum + hrs[k].count;
    }
    assert hrs[..|hrs|] == hrs;
    return sum >= need;
  }

  method CheckDist(hosts: array<int>, count: nat) returns (ok: bool)
    ensures ok <==> forall i :: 0 <= i < hosts.Length ==> hosts[i] < count / 2
  {
    for k := 0 to hosts.Length
      invariant forall i :: 0 <= i < k ==> hosts[i] < count / 2
    {
      if hosts[k] >= count / 2 {
        return false;
      }
    }
    return true;
  }

  // ---------------------------------------------------------------- sorting

  ghost predicate Ascending(s: seq<HostRes>) {
    forall i, j :: 0 <= i < j < |s| ==> s[i].count <= s[j].count
  }

  ghost predicate NamesDistinct(s: seq<HostRes>) {
    forall i, j :: 0 <= i < j < |s| ==> s[i].name != s[j].name
  }

  /** `sort.Sort(byCountDesc(hrs))`; callers rely on this contract only, not on how ties fall. */
  method SortByCount(hrs: seq<HostRes>) returns (sorted: seq<HostRes>)
    requires NamesDistinct(hrs)
    ensures |sorted| == |hrs| && Ascending(sorted) && NamesDistinct(sorted)
    ensures forall x :: x in sorted <==> x in hrs
  {
    sorted := [];
    for k := 0 to |hrs|
      invariant |sorted| == k && Ascending(sorted) && NamesDistinct(sorted)
      invariant forall x :: x in sorted <==> x in hrs[..k]
    {
      var x := hrs[k];
      var p := 0;
      while p < |sorted| && sorted[p].count <= x.count
        invariant 0 <= p <= |sorted|
        invariant forall i :: 0 <= i < p ==> sorted[i].count <= x.count
      {
        p := p + 1;
      }
      forall i | 0 <= i < |sorted|
        ensures sorted[i].name != x.name
      {
        assert sorted[i] in hrs[..k];
      }
      sorted := Inserted(sorted, p, x);
      assert hrs[..k + 1] == hrs[..k] + [x];
    }
    assert hrs[..|hrs|] == hrs;
  }

  // ---------------------------------------------------------------- Chunks

  /** Every node sits on an offered host, at a port of that host's offer. */
  ghost predicate UsesOffers(plan: seq<Chunk>, offers: seq<Offer>) {
    forall k, x :: 0 <= k < |plan| && 0 <= x < |plan[k].nodes| ==>
      exists i :: 0 <= i < |offers| && offers[i].hostname == plan[k].nodes[x].name
                  && plan[k].nodes[x].port in offers[i].ports
  }

  ghost predicate NoRepeatedPorts(offers: seq<Offer>) {
    forall i, j, k :: 0 <= i < |offers| && 0 <= j < k < |offers[i].ports| ==> offers[i].ports[j] != offers[i].ports[k]
  }

  /** The nodes on each host need no more memory, cpus or ports than its offer has. */
  ghost predicate WithinOffers(plan: seq<Chunk>, offers: seq<Offer>, mem: real, cpu: real) {
    forall i :: 0 <= i < |offers| ==> CanRun(offers[i], mem, cpu, NodesOnHost(plan, offers[i].hostname))
  }

  /** Every offer has the resources of the level share of `masterNum / n` masters and their slaves, rounded up. */
  ghost predicate LevelShareFits(masterNum: nat, offers: seq<Offer>, mem: real, cpu: real) {
    forall i :: 0 <= i < |offers| ==> CanRun(offers[i], mem, cpu, 2 * CeilDiv(masterNum, |offers|))
  }

  // The same through the capacities the original computes.

  ghost predicate WithinCapacity(plan: seq<Chunk>, offers: seq<Offer>, mem: real, cpu: real)
    requires mem > 0.0 && cpu > 0.0
  {
    forall i :: 0 <= i < |offers| ==> NodesOnHost(plan, offers[i].hostname) <= NodeCapacity(offers[i], mem, cpu)
  }

  ghost predicate ShareWithinCapacity(masterNum: nat, offers: seq<Offer>, mem: real, cpu: real)
    requires mem > 0.0 && cpu > 0.0
  {
    forall i :: 0 <= i < |offers| ==> 2 * CeilDiv(masterNum, |offers|) <= NodeCapacity(offers[i], mem, cpu)
  }

  ghost predicate GoodPlan(plan: seq<Chunk>, masterNum: nat, offers: seq<Offer>) {
    && 2 * |plan| == masterNum && AllCross(plan)
    && (forall h :: NodesOnHost(plan, h) < masterNum)
    && UsesOffers(plan, offers) && (NoRepeatedPorts(offers) ==> DistinctAddresses(plan))
  }

  ghost predicate LevelPlan(plan: seq<Chunk>, masterNum: nat, offers: seq<Offer>) {
    forall i :: 0 <= i < |offers| ==>
      2 * CeilDiv(masterNum, |offers|) - 2 <= NodesOnHost(plan, offers[i].hostname) <= 2 * CeilDiv(masterNum, |offers|)
  }

  lemma {:induction false} ShareInResources(masterNum: nat, offers: seq<Offer>, mem: real, cpu: real)
    requires mem > 0.0 && cpu > 0.0 && masterNum > 0
    ensures LevelShareFits(masterNum, offers, mem, cpu) <==> ShareWithinCapacity(masterNum, offers, mem, cpu)
  {
    hide NodeCapacity, CanRun;
    forall i | 0 <= i < |offers|
      ensures
        var share := 2 * CeilDiv(masterNum, |offers|);
        CanRun(offers[i], mem, cpu, share) <==> share <= NodeCapacity(offers[i], mem, cpu)
    {
      CapacityDecides(offers[i], mem, cpu, 2 * CeilDiv(masterNum, |offers|));
    }
  }

  /** A number of masters that can be placed on this many hosts. */
  predicate Sensible(masterNum: nat, hosts: nat) {
    masterNum >= 4 && masterNum % 2 == 0 && hosts >= 3 && !(hosts == 3 && masterNum == 4)
  }

  lemma {:induction false} TotalAtLeast(hrs: seq<HostRes>, c: nat)
    requires forall i :: 0 <= i < |hrs| ==> c <= hrs[i].count
    ensures TotalCapacity(hrs) >= c * |hrs|
  {
    if hrs != [] {
      TotalAtLeast(hrs[..|hrs| - 1], c);
      assert c * |hrs| == c * (|hrs| - 1) + c;
    }
  }

  /** Where the level share fits, the resources are enough. */
  lemma {:induction false} ShareIsEnough(masterNum: nat, offers: seq<Offer>, mem: real, cpu: real)
    requires mem > 0.0 && cpu > 0.0 && masterNum > 0 && offers != []
    ensures LevelShareFits(masterNum, offers, mem, cpu) ==>
      TotalCapacity(Resources(offers, mem, cpu)) >= 2 * masterNum
  {
    hide NodeCapacity, CeilDiv, TotalCapacity;
    if LevelShareFits(masterNum, offers, mem, cpu) {
      ShareInResources(masterNum, offers, mem, cpu);
      var share, n := CeilDiv(masterNum, |offers|), |offers|;
      CeilDivBound(masterNum, n, share);
      TotalAtLeast(Resources(offers, mem, cpu), 2 * share);
      assert 2 * share * n == 2 * (share * n);
    }
  }

  lemma {:induction false} EvenLoads(plan: seq<Chunk>, h: string)
    requires AllCross(plan)
    ensures NodesOnHost(plan, h) % 2 == 0
  {
    if plan != [] {
      assert CrossHost(plan[|plan| - 1]);
      EvenLoads(plan[..|plan| - 1], h);
    }
  }

  lemma {:induction false} SomethingFits(o: Offer, mem: real, cpu: real)
    requires mem > 0.0 && cpu > 0.0 && NodeCapacity(o, mem, cpu) >= 2
    ensures CanRun(o, mem, cpu, 0)
  {
    hide NodeCapacity;
    CapacityDecides(o, mem, cpu, 2);
  }

  lemma {:induction false} PlanInResources(plan: seq<Chunk>, masterNum: nat, offers: seq<Offer>, mem: real, cpu: real)
    requires mem > 0.0 && cpu > 0.0 && masterNum > 0 && AllCross(plan)
    requires WithinCapacity(plan, offers, mem, cpu) <==> ShareWithinCapacity(masterNum, offers, mem, cpu)
    ensures WithinOffers(plan, offers, mem, cpu) <==> WithinCapacity(plan, offers, mem, cpu)
  {
    hide NodeCapacity, CanRun, NodesOnHost, AllCross;
    forall i | 0 <= i < |offers|
      ensures
        var load, cap := NodesOnHost(plan, offers[i].hostname), NodeCapacity(offers[i], mem, cpu);
        && (load > 0 ==> (CanRun(offers[i], mem, cpu, load) <==> load <= cap))
        && (cap >= 2 ==> CanRun(offers[i], mem, cpu, 0))
        && (CanRun(offers[i], mem, cpu, 0) ==> cap >= 0)
    {
      EvenLoads(plan, offers[i].hostname);
      var load := NodesOnHost(plan, offers[i].hostname);
      if load > 0 {
        CapacityDecides(offers[i], mem, cpu, load);
      }
      if NodeCapacity(offers[i], mem, cpu) >= 2 {
        SomethingFits(offers[i], mem, cpu);
      }
      if CanRun(offers[i], mem, cpu, 0) {
        NothingFits(offers[i], mem, cpu);
      }
    }
  }

  lemma {:induction false} NothingFits(o: Offer, mem: real, cpu: real)
    requires mem > 0.0 && cpu > 0.0 && CanRun(o, mem, cpu, 0)
    ensures NodeCapacity(o, mem, cpu) >= 0
  {
    hide NodeCapacity;
    CapacityIsLargest(o, mem, cpu);
  }

  // What happens when the smallest offer cannot hold the level share.

  ghost function LeastCapacity(offers: seq<Offer>, mem: real, cpu: real): (c: int)
    requires mem > 0.0 && cpu > 0.0 && offers != []
    ensures forall k :: 0 <= k < |offers| ==> c <= NodeCapacity(offers[k], mem, cpu)
    ensures exists k :: 0 <= k < |offers| && c == NodeCapacity(offers[k], mem, cpu)
  {
    var k := |offers| - 1;
    var last := NodeCapacity(offers[k], mem, cpu);
    if k == 0 then last
    else
      var least := LeastCapacity(offers[..k], mem, cpu);
      assert forall i :: 0 <= i < k ==> offers[..k][i] == offers[i];
      MinInt(least, last)
  }

  /** Nodes that every host but one gets: what the smallest offer can hold. */
  ghost function LevelLoad(offers: seq<Offer>, mem: real, cpu: real): nat
    requires mem > 0.0 && cpu > 0.0 && offers != []
  {
    var least := LeastCapacity(offers, mem, cpu);
    if least < 0 then 0 else least
  }

  /** Nodes that the one host gets: all the others. */
  ghost function Overload(masterNum: nat, offers: seq<Offer>, mem: real, cpu: real): int
    requires mem > 0.0 && cpu > 0.0 && offers != []
  {
    2 * masterNum - LevelLoad(offers, mem, cpu) * (|offers| - 1)
  }

  ghost predicate IsSmallest(offers: seq<Offer>, mem: real, cpu: real, k: int)
    requires mem > 0.0 && cpu > 0.0 && offers != []
  {
    0 <= k < |offers| && NodeCapacity(offers[k], mem, cpu) == LeastCapacity(offers, mem, cpu)
  }

  /** Offer `k` is given the overload: a panic if it has not that many ports, a plan otherwise. */
  ghost predicate OverloadedAt(masterNum: nat, mem: real, cpu: real, offers: seq<Offer>, r: Outcome, k: int)
    requires mem > 0.0 && cpu > 0.0 && 0 <= k < |offers|
  {
    var load := Overload(masterNum, offers, mem, cpu);
    if |offers[k].ports| < load then r == Panicked
    else
      && r.Planned? && NodesOnHost(r.chunks, offers[k].hostname) == load
      && forall j :: 0 <= j < |offers| && j != k ==>
        NodesOnHost(r.chunks, offers[j].hostname) == LevelLoad(offers, mem, cpu)
  }

  /**
   The outcome then: refused if the overload is half of all nodes or more, else one of the
   smallest offers - which one is up to the sort - is overloaded.
   */
  ghost predicate Overflows(masterNum: nat, mem: real, cpu: real, offers: seq<Offer>, r: Outcome)
    requires mem > 0.0 && cpu > 0.0 && offers != []
  {
    if Overload(masterNum, offers, mem, cpu) >= masterNum then r == Failed(BadDist)
    else exists k :: IsSmallest(offers, mem, cpu, k) && OverloadedAt(masterNum, mem, cpu, offers, r, k)
  }

  /** The checks in front of the fill, in their order. */
  method CheckChunk(masterNum: nat, mem: real, cpu: real, offers: seq<Offer>)
    returns (failure: Option<Failure>, sorted: seq<HostRes>)
    requires mem > 0.0 && cpu > 0.0 && DistinctHosts(offers)
    ensures failure == EarlyFailure(masterNum, mem, cpu, offers)
    ensures failure.None? ==> |sorted| == |offers| && Ascending(sorted) && NamesDistinct(sorted)
    ensures failure.None? ==> forall x :: x in sorted <==> x in Resources(offers, mem, cpu)
  {
    sorted := [];
    if masterNum % 2 != 0 {
      return Some(BadMasterNum), sorted;
    }
    var hosts := GetHosts(offers);
    if |hosts| < 3 {
      return Some(NotEnoughHost), sorted;
    }
    if |hosts| == 3 && masterNum == 4 {
      return Some(Not3Not4), sorted;
    }
    var hrs := MapIntoHostRes(offers, mem, cpu);
    assert hrs == Resources(offers, mem, cpu);
    var enough := CheckIfEnough(hrs, masterNum * 2);
    if !enough {
      return Some(NotEnoughResource), sorted;
    }
    sorted := SortByCount(hrs);
    return None, sorted;
  }

  ghost function Resources(offers: seq<Offer>, mem: real, cpu: real): (hrs: seq<HostRes>)
    requires mem > 0.0 && cpu > 0.0
    ensures |hrs| == |offers|
    ensures forall i :: 0 <= i < |hrs| ==> hrs[i] == HostRes(offers[i].hostname, NodeCapacity(offers[i], mem, cpu))
  {
    seq(|offers|, i requires 0 <= i < |offers| => HostRes(offers[i].hostname, NodeCapacity(offers[i], mem, cpu)))
  }

  ghost function EarlyFailure(masterNum: nat, mem: real, cpu: real, offers: seq<Offer>): Option<Failure>
    requires mem > 0.0 && cpu > 0.0
  {
    if masterNum % 2 != 0 then Some(BadMasterNum)
    else if |offers| < 3 then Some(NotEnoughHost)
    else if |offers| == 3 && masterNum == 4 then Some(Not3Not4)
    else if TotalCapacity(Resources(offers, mem, cpu)) < 2 * masterNum then Some(NotEnoughResource)
    else None
  }

  ghost function Names(s: seq<HostRes>): (n: seq<string>)
    ensures |n| == |s| && forall i :: 0 <= i < |s| ==> n[i] == s[i].name
  {
    seq(|s|, i requires 0 <= i < |s| => s[i].name)
  }

  ghost function Caps(s: seq<HostRes>): (c: seq<int>)
    ensures |c| == |s| && forall i :: 0 <= i < |s| ==> c[i] == s[i].count
  {
    seq(|s|, i requires 0 <= i < |s| => s[i].count)
  }

  lemma {:induction false} UsesOutside(links: seq<Link>, names: seq<string>, h: string)
    requires LinksAcross(links, names) && h !in names
    ensures Uses(links, h) == 0
  {
    if links != [] {
      UsesOutside(links[..|links| - 1], names, h);
      assert links[|links| - 1].base in names && links[|links| - 1].linkTo in names;
    }
  }

  /** The sorted hosts are the offered ones, in both directions. */
  ghost predicate SortedOffers(sorted: seq<HostRes>, offers: seq<Offer>, mem: real, cpu: real)
    requires mem > 0.0 && cpu > 0.0
  {
    && |sorted| == |offers| && Ascending(sorted) && NamesDistinct(sorted)
    && forall x :: x in sorted <==> x in Resources(offers, mem, cpu)
  }

  lemma {:induction false} OfferOfHost(sorted: seq<HostRes>, offers: seq<Offer>, mem: real, cpu: real, i: nat)
      returns (k: nat)
    requires mem > 0.0 && cpu > 0.0 && SortedOffers(sorted, offers, mem, cpu) && i < |sorted|
    ensures k < |offers| && sorted[i] == HostRes(offers[k].hostname, NodeCapacity(offers[k], mem, cpu))
  {
    var hrs := Resources(offers, mem, cpu);
    assert sorted[i] in hrs;
    k :| 0 <= k < |hrs| && hrs[k] == sorted[i];
  }

  lemma {:induction false} HostOfOffer(sorted: seq<HostRes>, offers: seq<Offer>, mem: real, cpu: real, k: nat)
      returns (i: nat)
    requires mem > 0.0 && cpu > 0.0 && SortedOffers(sorted, offers, mem, cpu) && k < |offers|
    ensures i < |sorted| && sorted[i] == HostRes(offers[k].hostname, NodeCapacity(offers[k], mem, cpu))
  {
    var hrs := Resources(offers, mem, cpu);
    assert hrs[k] in sorted;
    i :| 0 <= i < |sorted| && sorted[i] == hrs[k];
  }

  /** How the fill `h` of the sorted hosts decides the rest of a call. */
  lemma {:induction false} FillDecides(sorted: seq<HostRes>, offers: seq<Offer>, mem: real, cpu: real, masterNum: nat,
      h: seq<int>)
    requires mem > 0.0 && cpu > 0.0 && SortedOffers(sorted, offers, mem, cpu) && |sorted| >= 3 && masterNum % 2 == 0
    requires SmallestFirst(Caps(sorted)) && sorted[0].count % 2 == 0
    requires h == Fill(|sorted|, LevelRoom(Caps(sorted)), masterNum)
    ensures masterNum > 0 ==>
      ((forall i :: 0 <= i < |h| ==> h[i] <= sorted[i].count) <==> ShareWithinCapacity(masterNum, offers, mem, cpu))
    ensures masterNum > 0 && ShareWithinCapacity(masterNum, offers, mem, cpu) ==>
      var share := 2 * CeilDiv(masterNum, |offers|);
      h[0] == share && forall i :: 0 <= i < |h| ==> share - 2 <= h[i] <= share
  {
    var n, caps := |sorted|, Caps(sorted);
    if masterNum > 0 {
      FillFitsExactly(caps, masterNum);
      if 2 * CeilDiv(masterNum, n) <= caps[0] {
        forall k | 0 <= k < |offers|
          ensures 2 * CeilDiv(masterNum, n) <= NodeCapacity(offers[k], mem, cpu)
        {
          var i := HostOfOffer(sorted, offers, mem, cpu, k);
          assert caps[0] <= caps[i];
        }
        CeilDivBound(masterNum, n, SmallestPairs(caps));
        FillIsLevel(n, SmallestPairs(caps), LevelRoom(caps), masterNum);
      } else {
        var k := OfferOfHost(sorted, offers, mem, cpu, 0);
        assert !ShareWithinCapacity(masterNum, offers, mem, cpu);
      }
    }
  }

  ghost predicate PortsOfOffers(ports: map<string, seq<int>>, offers: seq<Offer>) {
    && (forall i :: 0 <= i < |offers| ==> offers[i].hostname in ports && ports[offers[i].hostname] == offers[i].ports)
    && (forall h :: h in ports ==> exists i :: 0 <= i < |offers| && offers[i].hostname == h)
  }

  ghost predicate LoadIs(links: seq<Link>, sorted: seq<HostRes>, h: seq<int>) {
    && |h| == |sorted| && LinksAcross(links, Names(sorted))
    && forall i :: 0 <= i < |h| ==> 2 * Uses(links, sorted[i].name) == h[i]
  }

  lemma {:induction false} EveryLoad(links: seq<Link>, sorted: seq<HostRes>, h: seq<int>, bound: int, host: string)
    requires LoadIs(links, sorted, h) && bound > 0 && forall i :: 0 <= i < |h| ==> h[i] < bound
    ensures 2 * Uses(links, host) < bound
  {
    var names := Names(sorted);
    if host in names {
      var i :| 0 <= i < |names| && names[i] == host;
      assert sorted[i].name == host;
    } else {
      UsesOutside(links, names, host);
    }
  }

  lemma {:induction false} NodesFromOffers(plan: seq<Chunk>, links: seq<Link>, ports: map<string, seq<int>>,
      offers: seq<Offer>)
    requires FromLinks(plan, links, ports) && PortsOfOffers(ports, offers)
    ensures UsesOffers(plan, offers)
  {
    forall k, x | 0 <= k < |plan| && 0 <= x < |plan[k].nodes|
      ensures exists i :: 0 <= i < |offers| && offers[i].hostname == plan[k].nodes[x].name
                          && plan[k].nodes[x].port in offers[i].ports
    {
      assert plan[k] == ChunkAt(links, ports, k);
      PortAt(plan, links, ports, k, x);
      var i :| 0 <= i < |offers| && offers[i].hostname == plan[k].nodes[x].name;
    }
  }

  lemma {:induction false} GoodFromLinks(plan: seq<Chunk>, links: seq<Link>, ports: map<string, seq<int>>,
      sorted: seq<HostRes>, offers: seq<Offer>, masterNum: nat, h: seq<int>)
    requires FromLinks(plan, links, ports) && PortsOfOffers(ports, offers) && LoadIs(links, sorted, h)
    requires masterNum > 0 && 4 * |links| == 2 * masterNum && forall i :: 0 <= i < |h| ==> h[i] < masterNum
    ensures GoodPlan(plan, masterNum, offers)
    ensures forall i :: 0 <= i < |sorted| ==> NodesOnHost(plan, sorted[i].name) == h[i]
  {
    PlanFromLinks(plan, links, ports);
    forall host
      ensures NodesOnHost(plan, host) < masterNum
    {
      EveryLoad(links, sorted, h, masterNum, host);
    }
    NodesFromOffers(plan, links, ports, offers);
    if NoRepeatedPorts(offers) {
      forall host, i, j | host in ports && 0 <= i < j < |ports[host]|
        ensures ports[host][i] != ports[host][j]
      {
        var k :| 0 <= k < |offers| && offers[k].hostname == host;
      }
    }
  }

  lemma {:induction false} WithinCapacityIsFit(plan: seq<Chunk>, sorted: seq<HostRes>, offers: seq<Offer>, mem: real,
      cpu: real, h: seq<int>)
    requires mem > 0.0 && cpu > 0.0 && SortedOffers(sorted, offers, mem, cpu) && |h| == |sorted|
    requires forall i :: 0 <= i < |sorted| ==> NodesOnHost(plan, sorted[i].name) == h[i]
    ensures WithinCapacity(plan, offers, mem, cpu) <==> forall i :: 0 <= i < |h| ==> h[i] <= sorted[i].count
  {
    if WithinCapacity(plan, offers, mem, cpu) {
      forall i | 0 <= i < |h|
        ensures h[i] <= sorted[i].count
      {
        var k := OfferOfHost(sorted, offers, mem, cpu, i);
      }
    }
    if forall i :: 0 <= i < |h| ==> h[i] <= sorted[i].count {
      forall k | 0 <= k < |offers|
        ensures NodesOnHost(plan, offers[k].hostname) <= NodeCapacity(offers[k], mem, cpu)
      {
        var i := HostOfOffer(sorted, offers, mem, cpu, k);
      }
    }
  }

  lemma {:induction false} LevelFromFill(plan: seq<Chunk>, sorted: seq<HostRes>, offers: seq<Offer>, mem: real,
      cpu: real, masterNum: nat, h: seq<int>)
    requires mem > 0.0 && cpu > 0.0 && SortedOffers(sorted, offers, mem, cpu) && |h| == |sorted| && |offers| > 0
    requires forall i :: 0 <= i < |sorted| ==> NodesOnHost(plan, sorted[i].name) == h[i]
    requires forall i :: 0 <= i < |h| ==>
      2 * CeilDiv(masterNum, |offers|) - 2 <= h[i] <= 2 * CeilDiv(masterNum, |offers|)
    ensures LevelPlan(plan, masterNum, offers)
  {
    forall k | 0 <= k < |offers|
      ensures
        var share := 2 * CeilDiv(masterNum, |offers|);
        share - 2 <= NodesOnHost(plan, offers[k].hostname) <= share
    {
      var i := HostOfOffer(sorted, offers, mem, cpu, k);
    }
  }

  /** No host is given more nodes than its offer has ports. */
  ghost predicate PortsHold(sorted: seq<HostRes>, offers: seq<Offer>, h: seq<int>) {
    |h| == |sorted| &&
    forall i, k :: 0 <= i < |sorted| && 0 <= k < |offers| && sorted[i].name == offers[k].hostname ==>
      h[i] <= |offers[k].ports|
  }

  lemma {:induction false} FillHasPorts(links: seq<Link>, ports: map<string, seq<int>>, sorted: seq<HostRes>,
      offers: seq<Offer>, mem: real, cpu: real, h: seq<int>)
    requires mem > 0.0 && cpu > 0.0 && SortedOffers(sorted, offers, mem, cpu)
    requires PortsOfOffers(ports, offers) && LoadIs(links, sorted, h)
    ensures EnoughPorts(links, ports) <==> PortsHold(sorted, offers, h)
  {
    hide Uses, NodeCapacity;
    var names := Names(sorted);
    if PortsHold(sorted, offers, h) {
      forall host
        ensures 2 * Uses(links, host) <= |PortsOf(ports, host)|
      {
        if host in names {
          var i :| 0 <= i < |names| && names[i] == host;
          var k := OfferOfHost(sorted, offers, mem, cpu, i);
          assert sorted[i].name == host == offers[k].hostname;
        } else {
          UsesOutside(links, names, host);
        }
      }
    }
    if EnoughPorts(links, ports) {
      forall i, k | 0 <= i < |sorted| && 0 <= k < |offers| && sorted[i].name == offers[k].hostname
        ensures h[i] <= |offers[k].ports|
      {
        assert 2 * Uses(links, sorted[i].name) <= |PortsOf(ports, sorted[i].name)|;
      }
    }
  }

  method NewLinkTable(n: nat) returns (table: array2<int>)
    ensures fresh(table) && table.Length0 == table.Length1 == n
    ensures forall i, j :: 0 <= i < n && 0 <= j < n ==> table[i, j] == 0
  {
    table := new int[n, n]((_, _) => 0);
  }

  lemma {:induction false} SmallestIsFirst(sorted: seq<HostRes>, offers: seq<Offer>, mem: real, cpu: real)
    requires mem > 0.0 && cpu > 0.0 && SortedOffers(sorted, offers, mem, cpu) && |sorted| > 0
    ensures SmallestFirst(Caps(sorted)) && sorted[0].count % 2 == 0
  {
    var k := OfferOfHost(sorted, offers, mem, cpu, 0);
  }

  /** The part of `Chunks` behind the checks and the fill: pair the hosts, then hand out ports. */
  method PairAndPlace(sorted: seq<HostRes>, hosts: array<int>, offers: seq<Offer>, masterNum: nat, ghost mem: real,
      ghost cpu: real)
    returns (r: Option<seq<Chunk>>)
    requires mem > 0.0 && cpu > 0.0 && SortedOffers(sorted, offers, mem, cpu) && DistinctHosts(offers)
    requires |sorted| == hosts.Length >= 2 && masterNum > 0
    requires Drainable(hosts[..]) && Sum(hosts[..]) == 2 * masterNum
    requires forall i :: 0 <= i < hosts.Length ==> hosts[i] < masterNum
    modifies hosts
    ensures r.Some? ==> GoodPlan(r.value, masterNum, offers)
    ensures r.Some? ==> forall i :: 0 <= i < |sorted| ==> NodesOnHost(r.value, sorted[i].name) == old(hosts[i])
    ensures r.Some? <==> PortsHold(sorted, offers, old(hosts[..]))
  {
    hide Uses, GoodPlan, ChunkAt, PortsLeft;
    ghost var h := hosts[..];
    var names := seq(|sorted|, i requires 0 <= i < |sorted| => sorted[i].name);
    assert names == Names(sorted);
    var table := NewLinkTable(|sorted|);
    var links := DrainIntoLinks(names, hosts, table, true);
    assert LoadIs(links, sorted, h);
    var ports := MapIntoPortsMap(offers);
    r := Links2Chunks(links, ports);
    PortsSuffice(links, ports);
    FillHasPorts(links, ports, sorted, offers, mem, cpu, h);
    if r.Some? {
      assert FromLinks(r.value, links, ports);
      GoodFromLinks(r.value, links, ports, sorted, offers, masterNum, h);
    }
  }

  /** Ports follow from capacity. */
  lemma {:induction false} FittingFillHasPorts(sorted: seq<HostRes>, offers: seq<Offer>, mem: real, cpu: real,
      h: seq<int>)
    requires mem > 0.0 && cpu > 0.0 && SortedOffers(sorted, offers, mem, cpu) && DistinctHosts(offers)
    requires |h| == |sorted| && forall i :: 0 <= i < |h| ==> h[i] <= sorted[i].count
    ensures PortsHold(sorted, offers, h)
  {
    forall i, k | 0 <= i < |sorted| && 0 <= k < |offers| && sorted[i].name == offers[k].hostname
      ensures h[i] <= |offers[k].ports|
    {
      var j := OfferOfHost(sorted, offers, mem, cpu, i);
      assert j == k;
    }
  }

  lemma {:induction false} SmallestIsLeast(sorted: seq<HostRes>, offers: seq<Offer>, mem: real, cpu: real)
    requires mem > 0.0 && cpu > 0.0 && SortedOffers(sorted, offers, mem, cpu) && |sorted| > 0
    ensures sorted[0].count == LeastCapacity(offers, mem, cpu)
  {
    hide NodeCapacity, LeastCapacity;
    var k :| 0 <= k < |offers| && LeastCapacity(offers, mem, cpu) == NodeCapacity(offers[k], mem, cpu);
    var i := HostOfOffer(sorted, offers, mem, cpu, k);
    var j := OfferOfHost(sorted, offers, mem, cpu, 0);
  }

  ghost predicate OverflowingFill(sorted: seq<HostRes>, offers: seq<Offer>, mem: real, cpu: real, masterNum: nat,
      h: seq<int>)
    requires mem > 0.0 && cpu > 0.0 && offers != []
  {
    && |h| == |sorted| > 0 && sorted[0].count == LeastCapacity(offers, mem, cpu)
    && h[0] == Overload(masterNum, offers, mem, cpu) > LevelLoad(offers, mem, cpu)
    && forall i :: 1 <= i < |h| ==> h[i] == LevelLoad(offers, mem, cpu)
  }

  /** The fill beyond the level share: everything that is too much is on host 0, a smallest one. */
  lemma {:induction false} FillBeyondShare(sorted: seq<HostRes>, offers: seq<Offer>, mem: real, cpu: real,
      masterNum: nat, h: seq<int>)
    requires mem > 0.0 && cpu > 0.0 && SortedOffers(sorted, offers, mem, cpu) && |sorted| > 0
    requires SmallestFirst(Caps(sorted)) && sorted[0].count % 2 == 0 && masterNum > 0
    requires h == Fill(|sorted|, LevelRoom(Caps(sorted)), masterNum)
    requires !ShareWithinCapacity(masterNum, offers, mem, cpu)
    ensures OverflowingFill(sorted, offers, mem, cpu, masterNum, h)
  {
    hide NodeCapacity, LeastCapacity, Fill, LevelRoom;
    SmallestIsLeast(sorted, offers, mem, cpu);
    assert 2 * CeilDiv(masterNum, |offers|) > sorted[0].count;
    FillOverflows(Caps(sorted), masterNum);
  }

  /** Which offer host 0 is, and that only it can be short of ports. */
  lemma {:induction false} OverflowingPorts(sorted: seq<HostRes>, offers: seq<Offer>, mem: real, cpu: real,
      masterNum: nat, h: seq<int>)
    returns (k: nat)
    requires mem > 0.0 && cpu > 0.0 && SortedOffers(sorted, offers, mem, cpu) && DistinctHosts(offers) && offers != []
    requires OverflowingFill(sorted, offers, mem, cpu, masterNum, h)
    ensures IsSmallest(offers, mem, cpu, k) && sorted[0].name == offers[k].hostname
    ensures PortsHold(sorted, offers, h) <==> h[0] <= |offers[k].ports|
  {
    hide LeastCapacity, Overload;
    k := OfferOfHost(sorted, offers, mem, cpu, 0);
    forall i, j | 0 < i < |sorted| && 0 <= j < |offers| && sorted[i].name == offers[j].hostname
      ensures h[i] <= |offers[j].ports|
    {
      var x := OfferOfHost(sorted, offers, mem, cpu, i);
      assert x == j;
      assert LeastCapacity(offers, mem, cpu) <= NodeCapacity(offers[j], mem, cpu) <= |offers[j].ports|;
    }
    hide NodeCapacity;
    if h[0] <= |offers[k].ports| {
      forall i, j | 0 <= i < |sorted| && 0 <= j < |offers| && sorted[i].name == offers[j].hostname
        ensures h[i] <= |offers[j].ports|
      {
        if i == 0 {
          assert j == k;
        }
      }
    }
  }

  /** The outcome of pairing such a fill. */
  lemma {:induction false} OverflowDecided(sorted: seq<HostRes>, offers: seq<Offer>, mem: real, cpu: real,
      masterNum: nat, h: seq<int>, r: Outcome)
    requires mem > 0.0 && cpu > 0.0 && SortedOffers(sorted, offers, mem, cpu) && DistinctHosts(offers) && offers != []
    requires OverflowingFill(sorted, offers, mem, cpu, masterNum, h) && h[0] < masterNum
    requires if PortsHold(sorted, offers, h) then r.Planned? else r == Panicked
    requires r.Planned? ==> forall i :: 0 <= i < |sorted| ==> NodesOnHost(r.chunks, sorted[i].name) == h[i]
    ensures Overflows(masterNum, mem, cpu, offers, r)
  {
    hide NodeCapacity, LeastCapacity, PortsHold, Overload, LevelLoad;
    var k := OverflowingPorts(sorted, offers, mem, cpu, masterNum, h);
    if r.Planned? {
      forall j | 0 <= j < |offers| && j != k
        ensures NodesOnHost(r.chunks, offers[j].hostname) == LevelLoad(offers, mem, cpu)
      {
        var i := HostOfOffer(sorted, offers, mem, cpu, j);
        assert i != 0;
      }
    }
    assert OverloadedAt(masterNum, mem, cpu, offers, r, k);
  }

  lemma {:induction false} TooFewMasters(n: nat, d: nat, room: nat, masterNum: nat)
    requires n > 0 && room == d * n && masterNum < 4 && masterNum % 2 == 0
    ensures Fill(n, room, masterNum)[0] >= masterNum
  {
    if masterNum == 2 {
      FillShare(n, d, room, 2, 0);
    } else {
      FillShare(n, d, room, 0, 0);
    }
  }

  lemma BelowHalfIsDrainable(h: seq<int>, masterNum: nat)
    requires AllEven(h) && Sum(h) == 2 * masterNum && masterNum % 2 == 0
    requires forall i :: 0 <= i < |h| ==> h[i] < masterNum
    ensures Drainable(h)
  {
  }

  /**
   The whole call. A negative `masterNum` makes the original spin forever in the fill and is
   excluded; hostnames are taken as distinct, one offer per host.
   */
  method Chunks(masterNum: nat, mem: real, cpu: real, offers: seq<Offer>) returns (r: Outcome)
    requires mem > 0.0 && cpu > 0.0 && DistinctHosts(offers)
    ensures EarlyFailure(masterNum, mem, cpu, offers).Some? ==>
      r == Failed(EarlyFailure(masterNum, mem, cpu, offers).value)
    ensures EarlyFailure(masterNum, mem, cpu, offers).None? && masterNum < 4 ==> r == Failed(BadDist)
    ensures masterNum % 2 == 1 ==> r == Failed(BadMasterNum)
    ensures masterNum % 2 == 0 && |offers| < 3 ==> r == Failed(NotEnoughHost)
    ensures masterNum == 4 && |offers| == 3 ==> r == Failed(Not3Not4)
    // a plan within every offer is found exactly when every offer has the resources of the level share
    ensures Sensible(masterNum, |offers|) ==>
      (r.Planned? && WithinOffers(r.chunks, offers, mem, cpu) <==> LevelShareFits(masterNum, offers, mem, cpu))
    ensures r.Planned? && LevelShareFits(masterNum, offers, mem, cpu) ==> LevelPlan(r.chunks, masterNum, offers)
    // otherwise a smallest offer gets all that is too much
    ensures
      && EarlyFailure(masterNum, mem, cpu, offers).None? && masterNum >= 4
      && !LevelShareFits(masterNum, offers, mem, cpu) ==>
      Overflows(masterNum, mem, cpu, offers, r)
    // and whatever is planned is well formed, fitting or not
    ensures r.Planned? ==> GoodPlan(r.chunks, masterNum, offers)
  {
    var failure, sorted := CheckChunk(masterNum, mem, cpu, offers);
    if failure.Some? {
      if Sensible(masterNum, |offers|) {
        ShareIsEnough(masterNum, offers, mem, cpu);
      }
      return Failed(failure.value);
    }
    r := Distribute(sorted, offers, masterNum, mem, cpu);
    if masterNum >= 4 {
      ShareInResources(masterNum, offers, mem, cpu);
      if r.Planned? {
        PlanInResources(r.chunks, masterNum, offers, mem, cpu);
      }
    }
  }

  method FillSorted(sorted: seq<HostRes>, masterNum: nat) returns (hosts: array<int>)
    requires sorted != [] && SmallestFirst(Caps(sorted)) && sorted[0].count % 2 == 0
    ensures fresh(hosts) && hosts[..] == Fill(|sorted|, LevelRoom(Caps(sorted)), masterNum)
    ensures AllEven(hosts[..]) && Sum(hosts[..]) == 2 * masterNum
  {
    var caps := seq(|sorted|, i requires 0 <= i < |sorted| => sorted[i].count);
    assert caps == Caps(sorted);
    hosts := DpFillHostRes(caps, masterNum * 2);
  }

  /** The part of `Chunks` behind its checks. */
  method Distribute(sorted: seq<HostRes>, offers: seq<Offer>, masterNum: nat, mem: real, cpu: real) returns (r: Outcome)
    requires mem > 0.0 && cpu > 0.0 && DistinctHosts(offers) && SortedOffers(sorted, offers, mem, cpu)
    requires |offers| == |sorted| >= 3 && masterNum % 2 == 0 && !(|sorted| == 3 && masterNum == 4)
    ensures masterNum < 4 ==> r == Failed(BadDist)
    ensures masterNum >= 4 ==>
      (r.Planned? && WithinCapacity(r.chunks, offers, mem, cpu) <==> ShareWithinCapacity(masterNum, offers, mem, cpu))
    ensures r.Planned? && ShareWithinCapacity(masterNum, offers, mem, cpu) ==> LevelPlan(r.chunks, masterNum, offers)
    ensures masterNum >= 4 && !ShareWithinCapacity(masterNum, offers, mem, cpu) ==>
      Overflows(masterNum, mem, cpu, offers, r)
    ensures r.Planned? ==> GoodPlan(r.chunks, masterNum, offers)
  {
    hide OverflowingFill, SortedOffers, ShareWithinCapacity, GoodPlan, LevelPlan, WithinCapacity, PortsHold, Fill,
         LevelRoom, SmallestFirst, LeastCapacity, Overload, LevelLoad, NodesOnHost, Drainable, Sum;
    SmallestIsFirst(sorted, offers, mem, cpu);
    var hosts := FillSorted(sorted, masterNum);
    ghost var h := hosts[..];
    HalfRule(sorted, offers, mem, cpu, masterNum, h);
    var ok := CheckDist(hosts, masterNum * 2);
    if !ok {
      return Failed(BadDist);
    }
    BelowHalfIsDrainable(h, masterNum);
    var plan := PairAndPlace(sorted, hosts, offers, masterNum, mem, cpu);
    r := if plan.None? then Panicked else Planned(plan.value);
    Conclude(sorted, offers, mem, cpu, masterNum, h, r);
  }

  /** What the half rule makes of the fill. */
  lemma {:induction false} HalfRule(sorted: seq<HostRes>, offers: seq<Offer>, mem: real, cpu: real, masterNum: nat,
      h: seq<int>)
    requires mem > 0.0 && cpu > 0.0 && SortedOffers(sorted, offers, mem, cpu) && DistinctHosts(offers)
    requires |sorted| >= 3 && masterNum % 2 == 0 && !(|sorted| == 3 && masterNum == 4)
    requires SmallestFirst(Caps(sorted)) && sorted[0].count % 2 == 0
    requires h == Fill(|sorted|, LevelRoom(Caps(sorted)), masterNum)
    ensures
      var kept := forall i :: 0 <= i < |h| ==> h[i] < masterNum;
      && (masterNum < 4 ==> !kept)
      && (masterNum >= 4 && ShareWithinCapacity(masterNum, offers, mem, cpu) ==> kept)
      && (masterNum >= 4 && !ShareWithinCapacity(masterNum, offers, mem, cpu) ==>
            && OverflowingFill(sorted, offers, mem, cpu, masterNum, h)
            && (kept <==> Overload(masterNum, offers, mem, cpu) < masterNum))
  {
    var caps := Caps(sorted);
    if masterNum < 4 {
      TooFewMasters(|sorted|, SmallestPairs(caps), LevelRoom(caps), masterNum);
    } else if ShareWithinCapacity(masterNum, offers, mem, cpu) {
      LevelShareBelowHalf(|sorted|, masterNum);
      FillDecides(sorted, offers, mem, cpu, masterNum, h);
    } else {
      FillBeyondShare(sorted, offers, mem, cpu, masterNum, h);
    }
  }

  /** What a call that got past the half rule has come to. */
  lemma {:induction false} Conclude(sorted: seq<HostRes>, offers: seq<Offer>, mem: real, cpu: real, masterNum: nat,
      h: seq<int>, r: Outcome)
    requires mem > 0.0 && cpu > 0.0 && SortedOffers(sorted, offers, mem, cpu) && DistinctHosts(offers)
    requires |sorted| >= 3 && masterNum % 2 == 0 && masterNum >= 4
    requires SmallestFirst(Caps(sorted)) && sorted[0].count % 2 == 0
    requires h == Fill(|sorted|, LevelRoom(Caps(sorted)), masterNum) && forall i :: 0 <= i < |h| ==> h[i] < masterNum
    requires if PortsHold(sorted, offers, h) then r.Planned? else r == Panicked
    requires r.Planned? ==> forall i :: 0 <= i < |sorted| ==> NodesOnHost(r.chunks, sorted[i].name) == h[i]
    ensures
      r.Planned? && WithinCapacity(r.chunks, offers, mem, cpu) <==> ShareWithinCapacity(masterNum, offers, mem, cpu)
    ensures ShareWithinCapacity(masterNum, offers, mem, cpu) ==> r.Planned? && LevelPlan(r.chunks, masterNum, offers)
    ensures !ShareWithinCapacity(masterNum, offers, mem, cpu) ==> Overflows(masterNum, mem, cpu, offers, r)
  {
    hide Fill, LevelRoom, Overflows, OverflowingFill, WithinCapacity, LevelPlan, PortsHold, NodeCapacity;
    assert |sorted| == |offers|;
    FillDecides(sorted, offers, mem, cpu, masterNum, h);
    if ShareWithinCapacity(masterNum, offers, mem, cpu) {
      FittingFillHasPorts(sorted, offers, mem, cpu, h);
      LevelFromFill(r.chunks, sorted, offers, mem, cpu, masterNum, h);
    } else {
      FillBeyondShare(sorted, offers, mem, cpu, masterNum, h);
      OverflowDecided(sorted, offers, mem, cpu, masterNum, h, r);
    }
    if r.Planned? {
      WithinCapacityIsFit(r.chunks, sorted, offers, mem, cpu, h);
    }
  }

  // ---------------------------------------------------------------- an overloaded host

  /** A host with this memory, plenty of cpus and as many ports as asked for; a node takes one unit of each. */
  function Host(name: string, mem: real, ports: nat): (o: Offer)
    ensures mem >= 0.0 ==> NodeCapacity(o, 1.0, 1.0) == MinInt(MinInt(mem.Floor, 100), ports) / 2 * 2
  {
    assert (mem * 100.0) / (1.0 * 100.0) == mem;
    Offer(name, mem, 100.0, seq(ports, i => 7000 + i))
  }

  /** One small host beside three that can run sixteen nodes. */
  function OneSmall(mem: real, ports: nat): (offers: seq<Offer>)
    ensures |offers| == 4
  {
    [Host("a", mem, ports), Host("b", 100.0, 16), Host("c", 100.0, 16), Host("d", 100.0, 16)]
  }

  lemma {:induction false} OneSmallLoads(mem: real, ports: nat)
    requires mem >= 0.0 && MinInt(mem.Floor, ports) == 4
    ensures
      var offers := OneSmall(mem, ports);
      && DistinctHosts(offers) && LeastCapacity(offers, 1.0, 1.0) == 4 && Overload(10, offers, 1.0, 1.0) == 8
      && !ShareWithinCapacity(10, offers, 1.0, 1.0)
      && forall k :: IsSmallest(offers, 1.0, 1.0, k) ==> k == 0
  {
    hide LeastCapacity, NodeCapacity;
    var offers := OneSmall(mem, ports);
    assert NodeCapacity(offers[0], 1.0, 1.0) == 4;
    assert forall k :: 1 <= k < 4 ==> NodeCapacity(offers[k], 1.0, 1.0) == 16;
  }

  lemma {:induction false} OneSmallPasses(mem: real, ports: nat)
    requires mem >= 0.0 && MinInt(mem.Floor, ports) == 4
    ensures EarlyFailure(10, 1.0, 1.0, OneSmall(mem, ports)) == None
  {
    hide NodeCapacity, LeastCapacity;
    var offers := OneSmall(mem, ports);
    var hrs := Resources(offers, 1.0, 1.0);
    assert hrs[0].count == 4 && hrs[1].count == hrs[2].count == hrs[3].count == 16;
    assert hrs[..3][..2] == hrs[..2] && hrs[..2][..1] == hrs[..1] && hrs[..1][..0] == [];
    assert TotalCapacity(hrs[..1]) == 4;
    assert TotalCapacity(hrs[..2]) == 20;
    assert TotalCapacity(hrs[..3]) == 36;
  }

  /** Hosts of 4, 16, 16 and 16 ports and ten masters: there is room, and `Chunks` panics. */
  lemma {:induction false} SmallHostPanics(r: Outcome)
    requires Overflows(10, 1.0, 1.0, OneSmall(100.0, 4), r)
    ensures EarlyFailure(10, 1.0, 1.0, OneSmall(100.0, 4)) == None
    ensures !LevelShareFits(10, OneSmall(100.0, 4), 1.0, 1.0) && r == Panicked
  {
    OneSmallPasses(100.0, 4);
    OneSmallLoads(100.0, 4);
    ShareInResources(10, OneSmall(100.0, 4), 1.0, 1.0);
    hide LeastCapacity, NodeCapacity, Overload, LevelLoad, EarlyFailure;
  }

  /** With ports but not the memory, the small host is planned twice the nodes it can run. */
  lemma {:induction false} SmallHostOverloaded(r: Outcome)
    requires Overflows(10, 1.0, 1.0, OneSmall(4.0, 16), r)
    ensures EarlyFailure(10, 1.0, 1.0, OneSmall(4.0, 16)) == None
    ensures !LevelShareFits(10, OneSmall(4.0, 16), 1.0, 1.0)
    ensures NodeCapacity(OneSmall(4.0, 16)[0], 1.0, 1.0) == 4 && r.Planned? && NodesOnHost(r.chunks, "a") == 8
  {
    OneSmallPasses(4.0, 16);
    OneSmallLoads(4.0, 16);
    ShareInResources(10, OneSmall(4.0, 16), 1.0, 1.0);
    hide LeastCapacity, NodeCapacity, Overload, LevelLoad, EarlyFailure, NodesOnHost;
  }
}
