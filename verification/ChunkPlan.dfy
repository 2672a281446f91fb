/**
 Turning links into four-node chunks with ports, and wiring slaves to masters:
 `links2Chunks` of platform/chunk/chunk.go and `setupSlaveOf` of
 platform/job/create/server_cluster.go.
 */
module ChunkPlan {
  import opened Common
  import opened HostPairing

  // ---------------------------------------------------------------- ports

  function PortsOf(ports: map<string, seq<int>>, h: string): seq<int> {
    if h in ports then ports[h] else []
  }

  /** Whether both hosts of link `k` have two ports left after the links before it. */
  ghost predicate PortsLeft(links: seq<Link>, ports: map<string, seq<int>>, k: nat)
    requires k < |links|
  {
    && 2 * Uses(links[..k], links[k].base) + 1 < |PortsOf(ports, links[k].base)|
    && 2 * Uses(links[..k], links[k].linkTo) + 1 < |PortsOf(ports, links[k].linkTo)|
  }

  /** The chunk of link `k`: each host offers its next two ports. */
  ghost function ChunkAt(links: seq<Link>, ports: map<string, seq<int>>, k: nat): Chunk
    requires k < |links| && PortsLeft(links, ports, k)
  {
    var a, b := links[k].base, links[k].linkTo;
    var i, j := 2 * Uses(links[..k], a), 2 * Uses(links[..k], b);
    Chunk([Node(a, PortsOf(ports, a)[i], Master, "", "-", []), Node(a, PortsOf(ports, a)[i + 1], Slave, "", "", []),
           Node(b, PortsOf(ports, b)[j], Master, "", "-", []), Node(b, PortsOf(ports, b)[j + 1], Slave, "", "", [])])
  }

  /** `None` stands for the index panic of a host that runs out of ports. */
  method Links2Chunks(links: seq<Link>, ports: map<string, seq<int>>) returns (r: Option<seq<Chunk>>)
    ensures r.Some? <==> AllPortsLeft(links, ports)
    ensures r.Some? ==> |r.value| == |links| && forall k :: 0 <= k < |links| ==> r.value[k] == ChunkAt(links, ports, k)
  {
    var used: map<string, nat> := map h | h in ports :: 0;
    var chunks: seq<Chunk> := [];
    for i := 0 to |links|
      invariant |chunks| == i
      invariant forall h :: (if h in used then used[h] else 0) == 2 * Uses(links[..i], h)
      invariant forall k :: 0 <= k < i ==> PortsLeft(links, ports, k) && chunks[k] == ChunkAt(links, ports, k)
    {
      var a, b := links[i].base, links[i].linkTo;
      var aUsed := if a in used then used[a] else 0;
      var bUsed := if b in used then used[b] else 0;
      assert aUsed == 2 * Uses(links[..i], a) && bUsed == 2 * Uses(links[..i], b);
      var aPorts, bPorts := PortsOf(ports, a), PortsOf(ports, b);
      if aUsed + 1 >= |aPorts| || bUsed + 1 >= |bPorts| {
        assert !PortsLeft(links, ports, i);
        return None;
      }
      var nodes := [Node(a, aPorts[aUsed], Master, "", "-", []), Node(a, aPorts[aUsed + 1], Slave, "", "", []),
                    Node(b, bPorts[bUsed], Master, "", "-", []), Node(b, bPorts[bUsed + 1], Slave, "", "", [])];
      used := used[a := aUsed + 2];
      used := used[b := bUsed + 2];
      chunks := chunks + [Chunk(nodes)];
      assert links[..i + 1][..i] == links[..i];
    }
    return Some(chunks);
  }

  lemma {:induction false} UsesPrefix(links: seq<Link>, k: nat, h: string)
    requires k <= |links|
    ensures Uses(links[..k], h) <= Uses(links, h)
    ensures k < |links| && (links[k].base == h || links[k].linkTo == h) ==> Uses(links[..k], h) < Uses(links, h)
    decreases |links|
  {
    if k < |links| {
      var init := links[..|links| - 1];
      assert init[..k] == links[..k];
      if k < |init| {
        assert init[k] == links[k];
      }
      UsesPrefix(init, k, h);
    } else {
      assert links[..k] == links;
    }
  }

  ghost predicate AllPortsLeft(links: seq<Link>, ports: map<string, seq<int>>) {
    forall k :: 0 <= k < |links| ==> PortsLeft(links, ports, k)
  }

  ghost predicate EnoughPorts(links: seq<Link>, ports: map<string, seq<int>>) {
    forall h :: 2 * Uses(links, h) <= |PortsOf(ports, h)|
  }

  /** A plan gets its ports exactly when no host needs more than it has. */
  lemma {:induction false} PortsSuffice(links: seq<Link>, ports: map<string, seq<int>>)
    ensures AllPortsLeft(links, ports) <==> EnoughPorts(links, ports)
  {
    if EnoughPorts(links, ports) {
      forall k | 0 <= k < |links|
        ensures PortsLeft(links, ports, k)
      {
        UsesPrefix(links, k, links[k].base);
        UsesPrefix(links, k, links[k].linkTo);
      }
    }
    if AllPortsLeft(links, ports) {
      forall h
        ensures 2 * Uses(links, h) <= |PortsOf(ports, h)|
      {
        PortsCover(links, ports, h, |links|);
        assert links[..|links|] == links;
      }
    }
  }

  lemma {:induction false} PortsCover(links: seq<Link>, ports: map<string, seq<int>>, h: string, n: nat)
    requires n <= |links| && AllPortsLeft(links, ports)
    ensures 2 * Uses(links[..n], h) <= |PortsOf(ports, h)|
  {
    if n > 0 {
      assert links[..n][..n - 1] == links[..n - 1] && links[..n][n - 1] == links[n - 1];
      assert PortsLeft(links, ports, n - 1);
      PortsCover(links, ports, h, n - 1);
    }
  }

  // ---------------------------------------------------------------- the shape of a plan

  /** Master and slave on one host, master and slave on another; masters follow nobody. */
  ghost predicate CrossHost(c: Chunk) {
    && |c.nodes| == 4
    && c.nodes[0].name == c.nodes[1].name != c.nodes[2].name == c.nodes[3].name
    && c.nodes[0].role == c.nodes[2].role == Master
    && c.nodes[1].role == c.nodes[3].role == Slave
    && c.nodes[0].slaveOf == c.nodes[2].slaveOf == "-"
  }

  ghost predicate AllCross(plan: seq<Chunk>) {
    forall k :: 0 <= k < |plan| ==> CrossHost(plan[k])
  }

  /** No address is handed out twice. */
  ghost predicate DistinctAddresses(plan: seq<Chunk>) {
    forall k, x, l, y :: 0 <= k < |plan| && 0 <= l < |plan| && 0 <= x < |plan[k].nodes| && 0 <= y < |plan[l].nodes|
      && plan[k].nodes[x].name == plan[l].nodes[y].name && plan[k].nodes[x].port == plan[l].nodes[y].port
      ==> k == l && x == y
  }

  ghost predicate DistinctPorts(ports: map<string, seq<int>>) {
    forall h, i, j :: h in ports && 0 <= i < j < |ports[h]| ==> ports[h][i] != ports[h][j]
  }

  ghost function NodesOn(c: Chunk, h: string): nat {
    if |c.nodes| != 4 then 0
    else (if c.nodes[0].name == h then 1 else 0) + (if c.nodes[1].name == h then 1 else 0) +
         (if c.nodes[2].name == h then 1 else 0) + (if c.nodes[3].name == h then 1 else 0)
  }

  ghost function NodesOnHost(plan: seq<Chunk>, h: string): nat {
    if plan == [] then 0 else NodesOnHost(plan[..|plan| - 1], h) + NodesOn(plan[|plan| - 1], h)
  }

  ghost predicate FromLinks(plan: seq<Chunk>, links: seq<Link>, ports: map<string, seq<int>>) {
    |plan| == |links| &&
    forall k :: 0 <= k < |links| ==>
      links[k].base != links[k].linkTo && PortsLeft(links, ports, k) && plan[k] == ChunkAt(links, ports, k)
  }

  lemma {:induction false} ChunkOfLink(plan: seq<Chunk>, links: seq<Link>, ports: map<string, seq<int>>, k: nat,
      h: string)
    requires FromLinks(plan, links, ports) && k < |plan|
    ensures CrossHost(plan[k])
    ensures NodesOn(plan[k], h) == if links[k].base == h || links[k].linkTo == h then 2 else 0
  {
    assert plan[k] == ChunkAt(links, ports, k);
  }

  lemma {:induction false} HostLoad(plan: seq<Chunk>, links: seq<Link>, h: string)
    requires |plan| == |links|
    requires forall k :: 0 <= k < |plan| ==>
      NodesOn(plan[k], h) == if links[k].base == h || links[k].linkTo == h then 2 else 0
    ensures NodesOnHost(plan, h) == 2 * Uses(links, h)
  {
    if plan != [] {
      HostLoad(plan[..|plan| - 1], links[..|links| - 1], h);
    }
  }

  /** The position in its host's port list of node `x` of chunk `k`. */
  ghost function PortIndex(links: seq<Link>, k: nat, x: nat): nat
    requires k < |links| && x < 4
  {
    2 * Uses(links[..k], if x < 2 then links[k].base else links[k].linkTo) + x % 2
  }

  lemma {:induction false} PortAt(plan: seq<Chunk>, links: seq<Link>, ports: map<string, seq<int>>, k: nat, x: nat)
    requires FromLinks(plan, links, ports) && k < |plan| && x < 4
    ensures |plan[k].nodes| == 4
    ensures plan[k].nodes[x].name == if x < 2 then links[k].base else links[k].linkTo
    ensures PortIndex(links, k, x) < |PortsOf(ports, plan[k].nodes[x].name)|
    ensures plan[k].nodes[x].port == PortsOf(ports, plan[k].nodes[x].name)[PortIndex(links, k, x)]
  {
    hide Uses;
    assert plan[k] == ChunkAt(links, ports, k) && PortsLeft(links, ports, k);
    assert x == 0 || x == 1 || x == 2 || x == 3;
  }

  lemma {:induction false} LaterPortIsHigher(plan: seq<Chunk>, links: seq<Link>, ports: map<string, seq<int>>, k: nat,
      x: nat, l: nat, y: nat)
    requires FromLinks(plan, links, ports) && k < l < |plan| && x < 4 && y < 4
    requires |plan[k].nodes| == 4 == |plan[l].nodes| && plan[k].nodes[x].name == plan[l].nodes[y].name
    ensures PortIndex(links, k, x) < PortIndex(links, l, y)
  {
    PortAt(plan, links, ports, k, x);
    PortAt(plan, links, ports, l, y);
    assert links[..l][..k] == links[..k] && links[..l][k] == links[k];
    UsesPrefix(links[..l], k, plan[k].nodes[x].name);
  }

  lemma {:induction false} FourNodes(plan: seq<Chunk>, links: seq<Link>, ports: map<string, seq<int>>)
    requires FromLinks(plan, links, ports)
    ensures forall k :: 0 <= k < |plan| ==> |plan[k].nodes| == 4
  {
    hide Uses;
  }

  lemma {:induction false} SameAddress(plan: seq<Chunk>, links: seq<Link>, ports: map<string, seq<int>>, k: nat, x: nat,
      l: nat, y: nat)
    requires FromLinks(plan, links, ports) && DistinctPorts(ports) && k < |plan| && l < |plan| && x < 4 && y < 4
    requires |plan[k].nodes| == 4 == |plan[l].nodes|
    requires plan[k].nodes[x].name == plan[l].nodes[y].name && plan[k].nodes[x].port == plan[l].nodes[y].port
    ensures k == l && x == y
  {
    hide Uses, ChunkAt, FromLinks, PortIndex;
    PortAt(plan, links, ports, k, x);
    PortAt(plan, links, ports, l, y);
    if k < l {
      LaterPortIsHigher(plan, links, ports, k, x, l, y);
    } else if l < k {
      LaterPortIsHigher(plan, links, ports, l, y, k, x);
    } else {
      SameChunkPort(plan, links, ports, k, x, y);
    }
  }

  lemma {:induction false} SameChunkPort(plan: seq<Chunk>, links: seq<Link>, ports: map<string, seq<int>>, k: nat,
      x: nat, y: nat)
    requires FromLinks(plan, links, ports) && k < |plan| && x < 4 && y < 4
    requires |plan[k].nodes| == 4 && plan[k].nodes[x].name == plan[k].nodes[y].name
    ensures PortIndex(links, k, x) == PortIndex(links, k, y) ==> x == y
  {
    hide Uses, ChunkAt;
    PortAt(plan, links, ports, k, x);
    PortAt(plan, links, ports, k, y);
    assert links[k].base != links[k].linkTo;
  }

  lemma {:induction false} AddressesDistinct(plan: seq<Chunk>, links: seq<Link>, ports: map<string, seq<int>>)
    requires FromLinks(plan, links, ports) && DistinctPorts(ports)
    ensures DistinctAddresses(plan)
  {
    hide FromLinks, DistinctPorts;
    FourNodes(plan, links, ports);
    forall k, x, l, y | 0 <= k < |plan| && 0 <= l < |plan| && 0 <= x < |plan[k].nodes| && 0 <= y < |plan[l].nodes|
      && plan[k].nodes[x].name == plan[l].nodes[y].name && plan[k].nodes[x].port == plan[l].nodes[y].port
      ensures k == l && x == y
    {
      SameAddress(plan, links, ports, k, x, l, y);
    }
  }

  /** Everything the allocator promises about where the nodes of a plan are. */
  lemma {:induction false} PlanFromLinks(plan: seq<Chunk>, links: seq<Link>, ports: map<string, seq<int>>)
    requires FromLinks(plan, links, ports)
    ensures AllCross(plan)
    ensures forall h :: NodesOnHost(plan, h) == 2 * Uses(links, h)
    ensures DistinctPorts(ports) ==> DistinctAddresses(plan)
  {
    forall k | 0 <= k < |plan|
      ensures CrossHost(plan[k])
    {
      ChunkOfLink(plan, links, ports, k, "");
    }
    forall h
      ensures NodesOnHost(plan, h) == 2 * Uses(links, h)
    {
      forall k | 0 <= k < |plan|
        ensures NodesOn(plan[k], h) == if links[k].base == h || links[k].linkTo == h then 2 else 0
      {
        ChunkOfLink(plan, links, ports, k, h);
      }
      HostLoad(plan, links, h);
    }
    if DistinctPorts(ports) {
      AddressesDistinct(plan, links, ports);
    }
  }

  // ---------------------------------------------------------------- replication

  ghost function IdOf(ids: map<(string, int), string>, n: Node): string {
    if (n.name, n.port) in ids then ids[(n.name, n.port)] else ""
  }

  ghost predicate WiredChunk(c: Chunk, from: Chunk, ids: map<(string, int), string>) {
    && |c.nodes| == |from.nodes| == 4
    && (forall x :: 0 <= x < 4 ==>
          && c.nodes[x].name == from.nodes[x].name && c.nodes[x].port == from.nodes[x].port
          && c.nodes[x].role == from.nodes[x].role && c.nodes[x].runId == IdOf(ids, from.nodes[x]))
    && c.nodes[1].slaveOf == c.nodes[2].runId && c.nodes[3].slaveOf == c.nodes[0].runId
    && c.nodes[0].slaveOf == from.nodes[0].slaveOf && c.nodes[2].slaveOf == from.nodes[2].slaveOf
  }

  ghost predicate SameSlots(c: Chunk, from: Chunk) {
    |c.nodes| == |from.nodes| && forall x :: 0 <= x < |c.nodes| ==> c.nodes[x].slots == from.nodes[x].slots
  }

  method SetupSlaveOf(plan: array<Chunk>, ids: map<(string, int), string>)
    requires forall k :: 0 <= k < plan.Length ==> |plan[k].nodes| == 4
    modifies plan
    ensures forall k :: 0 <= k < plan.Length ==>
      WiredChunk(plan[k], old(plan[k]), ids) && SameSlots(plan[k], old(plan[k]))
  {
    hide IdOf;
    for k := 0 to plan.Length
      invariant forall j :: 0 <= j < k ==> WiredChunk(plan[j], old(plan[j]), ids) && SameSlots(plan[j], old(plan[j]))
      invariant forall j :: k <= j < plan.Length ==> plan[j] == old(plan[j])
    {
      var c := WireChunk(plan[k], ids);
      plan[k] := c;
    }
  }

  /** The loop body: run ids first, then the two slaves. */
  method WireChunk(c: Chunk, ids: map<(string, int), string>) returns (r: Chunk)
    requires |c.nodes| == 4
    ensures WiredChunk(r, c, ids) && SameSlots(r, c)
  {
    var nodes := c.nodes;
    for x := 0 to |nodes|
      invariant |nodes| == |c.nodes|
      invariant forall y :: 0 <= y < x ==> nodes[y] == c.nodes[y].(runId := IdOf(ids, c.nodes[y]))
      invariant forall y :: x <= y < |nodes| ==> nodes[y] == c.nodes[y]
    {
      var n := nodes[x];
      nodes := nodes[x := n.(runId := if (n.name, n.port) in ids then ids[(n.name, n.port)] else "")];
    }
    nodes := nodes[1 := nodes[1].(slaveOf := nodes[2].runId)];
    nodes := nodes[3 := nodes[3].(slaveOf := nodes[0].runId)];
    r := Chunk(nodes);
  }

  ghost predicate Wired(plan: seq<Chunk>, from: seq<Chunk>, ids: map<(string, int), string>) {
    |plan| == |from| && forall k :: 0 <= k < |plan| ==> WiredChunk(plan[k], from[k], ids)
  }

  /** Every address of the plan has a run ID, and no two share one. */
  ghost predicate DistinctIds(plan: seq<Chunk>, ids: map<(string, int), string>) {
    && (forall k, x :: 0 <= k < |plan| && 0 <= x < |plan[k].nodes| ==>
          (plan[k].nodes[x].name, plan[k].nodes[x].port) in ids)
    && (forall a, b :: a in ids && b in ids && ids[a] == ids[b] ==> a == b)
  }

  ghost predicate Replicates(s: Node, m: Node) {
    s.role == Slave && m.role == Master && s.slaveOf == m.runId
  }

  /** The slave of each master is the one across its own chunk, and there is no other. */
  lemma {:induction false} SlaveIsAcross(plan: seq<Chunk>, from: seq<Chunk>, ids: map<(string, int), string>, k: nat,
      x: nat, l: nat, y: nat)
    requires AllCross(from) && DistinctAddresses(from) && DistinctIds(from, ids) && Wired(plan, from, ids)
    requires k < |plan| && l < |plan| && x < 4 && y < 4 && |plan[k].nodes| == 4 == |plan[l].nodes|
    requires plan[k].nodes[x].role == Master && plan[l].nodes[y].role == Slave
    ensures Replicates(plan[l].nodes[y], plan[k].nodes[x]) <==> l == k && y == 3 - x
    ensures l == k && y == 3 - x ==> plan[l].nodes[y].name != plan[k].nodes[x].name
  {
    assert CrossHost(from[k]) && CrossHost(from[l]) && WiredChunk(plan[k], from[k], ids) &&
      WiredChunk(plan[l], from[l], ids);
    assert x == 0 || x == 2;
    assert y == 1 || y == 3;
    var z := 3 - y;
    var a, b := from[l].nodes[z], from[k].nodes[x];
    assert plan[l].nodes[y].slaveOf == IdOf(ids, a) && plan[k].nodes[x].runId == IdOf(ids, b);
    assert (a.name, a.port) in ids && (b.name, b.port) in ids;
  }

  ghost predicate CopySurvives(plan: seq<Chunk>, m: Node, lost: string) {
    m.name != lost ||
    exists l, y :: 0 <= l < |plan| && 0 <= y < |plan[l].nodes| &&
      plan[l].nodes[y].name != lost && Replicates(plan[l].nodes[y], m)
  }

  /** Losing any one host leaves a copy of every shard. */
  lemma {:induction false} AnyHostMayFail(plan: seq<Chunk>, from: seq<Chunk>, ids: map<(string, int), string>,
      lost: string)
    requires AllCross(from) && Wired(plan, from, ids)
    ensures forall k, x :: 0 <= k < |plan| && 0 <= x < |plan[k].nodes| && plan[k].nodes[x].role == Master
              ==> CopySurvives(plan, plan[k].nodes[x], lost)
  {
    forall k, x | 0 <= k < |plan| && 0 <= x < |plan[k].nodes| && plan[k].nodes[x].role == Master
      ensures CopySurvives(plan, plan[k].nodes[x], lost)
    {
      assert CrossHost(from[k]) && WiredChunk(plan[k], from[k], ids);
      assert x == 0 || x == 2;
      var s := plan[k].nodes[3 - x];
      assert Replicates(s, plan[k].nodes[x]) && s.name != plan[k].nodes[x].name;
    }
  }
}
