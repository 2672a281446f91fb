/**
 From the plan of platform/chunk to the table of the proxy: `Create` of
 platform/job/create/server_cluster.go deals the slots and wires the slaves, the node lines are
 printed, and the proxy parses them.
 */
module ClusterPlan {
  import opened Common
  import opened Text
  import opened Words
  import opened Slots
  import opened ChunkPlan
  import opened ChunkAllocator
  import opened NodesConf
  import opened ConfRoundTrip
  import opened ConfParser
  import Decimal

  /** The middle of `Create`: `divideSlots`, then `setupSlaveOf`. */
  method Create(plan: array<Chunk>, number: int, ids: map<(string, int), string>)
    requires number > 0 && forall k :: 0 <= k < plan.Length ==> |plan[k].nodes| == 4
    modifies plan
    ensures Wired(plan[..], old(plan[..]), ids) && Dealt(NodesOf(plan[..]), number)
  {
    ghost var from := plan[..];
    hide Dealt, WiredChunk;
    DivideSlots(plan, number);
    ghost var dealt := plan[..];
    SetupSlaveOf(plan, ids);
    ghost var wired := plan[..];
    forall k | 0 <= k < |wired|
      ensures WiredChunk(wired[k], from[k], ids)
    {
      WiredThrough(wired[k], dealt[k], from[k], ids);
    }
    DealtThrough(wired, dealt, ids, number);
  }

  lemma {:induction false} WiredThrough(c: Chunk, dealt: Chunk, from: Chunk, ids: map<(string, int), string>)
    requires WiredChunk(c, dealt, ids) && SameButSlots(dealt, from)
    ensures WiredChunk(c, from, ids)
  {
    assert forall x :: 0 <= x < 4 ==> SameNode(dealt.nodes[x], from.nodes[x]);
  }

  ghost predicate Alike(a: seq<Node>, b: seq<Node>) {
    |a| == |b| && forall i :: 0 <= i < |a| ==> a[i].role == b[i].role && a[i].slots == b[i].slots
  }

  lemma {:induction false} RankAlike(a: seq<Node>, b: seq<Node>, k: nat)
    requires Alike(a, b) && k <= |a|
    ensures Rank(a, k) == Rank(b, k)
  {
    if k > 0 {
      RankAlike(a, b, k - 1);
    }
  }

  lemma {:induction false} FlatAlike(a: seq<Chunk>, b: seq<Chunk>, ids: map<(string, int), string>)
    requires |a| == |b| && forall k :: 0 <= k < |a| ==> WiredChunk(a[k], b[k], ids) && SameSlots(a[k], b[k])
    ensures Alike(NodesOf(a), NodesOf(b))
  {
    hide WiredChunk, SameSlots;
    if a != [] {
      var k := |a| - 1;
      FlatAlike(a[..k], b[..k], ids);
      ChunkAlike(a[k], b[k], ids);
    }
  }

  lemma {:induction false} ChunkAlike(c: Chunk, d: Chunk, ids: map<(string, int), string>)
    requires WiredChunk(c, d, ids) && SameSlots(c, d)
    ensures Alike(c.nodes, d.nodes)
  {
    hide IdOf;
  }

  lemma {:induction false} DealtThrough(wired: seq<Chunk>, dealt: seq<Chunk>, ids: map<(string, int), string>,
      number: int)
    requires number > 0 && Dealt(NodesOf(dealt), number)
    requires |wired| == |dealt| && forall k :: 0 <= k < |wired| ==>
      WiredChunk(wired[k], dealt[k], ids) && SameSlots(wired[k], dealt[k])
    ensures Dealt(NodesOf(wired), number)
  {
    hide WiredChunk, SameSlots, NodesOf, Rank, RangeAt;
    FlatAlike(wired, dealt, ids);
    var a, b := NodesOf(wired), NodesOf(dealt);
    forall i | 0 <= i < |a|
      ensures Rank(a, i) == Rank(b, i)
    {
      RankAlike(a, b, i);
    }
  }

  // ---------------------------------------------------------------- nodes by chunk

  ghost predicate Fours(plan: seq<Chunk>) { forall k :: 0 <= k < |plan| ==> |plan[k].nodes| == 4 }

  lemma {:induction false} FlatAt(plan: seq<Chunk>, k: nat, x: nat)
    requires Fours(plan) && k < |plan| && x < 4
    ensures |NodesOf(plan)| == 4 * |plan| && NodesOf(plan)[4 * k + x] == plan[k].nodes[x]
  {
    var n := |plan| - 1;
    FlatSize(plan[..n]);
    if k < n {
      FlatAt(plan[..n], k, x);
    }
  }

  lemma {:induction false} FlatSize(plan: seq<Chunk>)
    requires Fours(plan)
    ensures |NodesOf(plan)| == 4 * |plan|
  {
    if plan != [] {
      FlatSize(plan[..|plan| - 1]);
    }
  }

  /** Roles alternate, so a chunk adds two to the rank. */
  lemma {:induction false} RankOverChunk(nodes: seq<Node>, i: nat)
    requires i + 4 <= |nodes| && nodes[i].role == nodes[i + 2].role == Master &&
      nodes[i + 1].role == nodes[i + 3].role == Slave
    ensures Rank(nodes, i + 4) == Rank(nodes, i) + 2
  {
    assert Rank(nodes, i + 1) == Rank(nodes, i) + 1;
    assert Rank(nodes, i + 2) == Rank(nodes, i + 1);
    assert Rank(nodes, i + 3) == Rank(nodes, i + 2) + 1;
  }

  lemma {:induction false} ChunkRank(plan: seq<Chunk>, k: nat)
    requires Fours(plan) &&
      (forall j, x :: 0 <= j < |plan| && 0 <= x < 4 ==> plan[j].nodes[x].role == if x % 2 == 0 then Master else Slave)
    requires k <= |plan|
    ensures |NodesOf(plan)| == 4 * |plan| && Rank(NodesOf(plan), 4 * k) == 2 * k
  {
    hide NodesOf, Rank;
    FlatSize(plan);
    if k == 0 {
      NoRank(NodesOf(plan));
    } else {
      ChunkRank(plan, k - 1);
      FlatAt(plan, k - 1, 0);
      FlatAt(plan, k - 1, 1);
      FlatAt(plan, k - 1, 2);
      FlatAt(plan, k - 1, 3);
      RankOverChunk(NodesOf(plan), 4 * (k - 1));
    }
  }

  lemma NoRank(nodes: seq<Node>)
    ensures Rank(nodes, 0) == 0
  {
  }

  // ---------------------------------------------------------------- names

  ghost predicate NoColon(p: string) { forall i :: 0 <= i < |p| ==> p[i] != ':' }

  lemma {:induction false} LastColon(a: string, p: string, b: string, q: string)
    requires a + ":" + p == b + ":" + q && NoColon(p) && NoColon(q)
    ensures a == b && p == q
  {
    var s := a + ":" + p;
    assert s[|a|] == ':' && s[|b|] == ':';
    assert s[..|a|] == a && s[..|b|] == b && s[|a| + 1..] == p && s[|b| + 1..] == q;
  }

  /** Different hosts or ports print as different addresses. */
  lemma {:induction false} AddrInjective(n: Node, m: Node)
    requires Addr(n) == Addr(m)
    ensures n.name == m.name && n.port == m.port
  {
    ItoaPlain(n.port);
    ItoaPlain(m.port);
    hide Decimal.Itoa;
    LastColon(n.name, Decimal.Itoa(n.port), m.name, Decimal.Itoa(m.port));
    Decimal.ItoaInjective(n.port, m.port);
  }

  /** Host names that a node line can hold. */
  ghost predicate Hostnames(plan: seq<Chunk>) {
    forall k, x :: 0 <= k < |plan| && 0 <= x < |plan[k].nodes| ==>
      NoSpace(plan[k].nodes[x].name) && '@' !in plan[k].nodes[x].name
  }

  /** Every address has a run id that a line can hold, and no two padded ids are the same. */
  ghost predicate PaddedIds(plan: seq<Chunk>, ids: map<(string, int), string>) {
    && (forall k, x :: 0 <= k < |plan| && 0 <= x < |plan[k].nodes| ==>
      (plan[k].nodes[x].name, plan[k].nodes[x].port) in ids)
    && (forall a :: a in ids ==> NoSpace(ids[a]))
    && (forall a, b :: a in ids && b in ids && Pad40(ids[a]) == Pad40(ids[b]) ==> a == b)
  }

  /** A plan as `Chunks` makes it, dealt and wired. */
  ghost predicate Ready(plan: seq<Chunk>, from: seq<Chunk>, ids: map<(string, int), string>) {
    && from != [] && AllCross(from) && DistinctAddresses(from) && Hostnames(from) && PaddedIds(from, ids)
    && Wired(plan, from, ids) && Dealt(NodesOf(plan), 2 * |from|)
  }

  /** One node of a ready plan. */
  lemma {:induction false} ReadyNode(plan: seq<Chunk>, from: seq<Chunk>, ids: map<(string, int), string>, k: nat,
      x: nat)
    requires Ready(plan, from, ids) && k < |plan| && x < 4
    ensures |plan| == |from| && |plan[k].nodes| == 4 && |from[k].nodes| == 4
    ensures
      var n, m := plan[k].nodes[x], from[k].nodes[x];
      && n.role == (if x % 2 == 0 then Master else Slave) && NamedNode(n) && n.name == m.name && n.port == m.port
      && (n.name, n.port) in ids && n.runId == ids[(n.name, n.port)]
      && (x % 2 == 1 ==> n.slaveOf == plan[k].nodes[3 - x].runId && n.name != plan[k].nodes[3 - x].name)
  {
    hide Dealt, NodesOf, Pad40, DistinctAddresses;
    assert WiredChunk(plan[k], from[k], ids) && CrossHost(from[k]);
    assert x == 0 || x == 1 || x == 2 || x == 3;
    var m := from[k].nodes[x];
    assert (m.name, m.port) in ids;
    var o := from[k].nodes[3 - x];
    assert (o.name, o.port) in ids;
  }

  /** Two nodes with the same address or the same padded id are the same node. */
  lemma {:induction false} ReadyApart(plan: seq<Chunk>, from: seq<Chunk>, ids: map<(string, int), string>, k: nat,
      x: nat, l: nat, y: nat)
    requires Ready(plan, from, ids) && k < |plan| && l < |plan| && x < 4 && y < 4 &&
      |plan[k].nodes| == 4 == |plan[l].nodes|
    requires Addr(plan[k].nodes[x]) == Addr(plan[l].nodes[y]) ||
      Pad40(plan[k].nodes[x].runId) == Pad40(plan[l].nodes[y].runId)
    ensures k == l && x == y
  {
    hide Dealt, NodesOf, Pad40, Wired, AllCross, Hostnames, Addr, NamedNode;
    ReadyNode(plan, from, ids, k, x);
    ReadyNode(plan, from, ids, l, y);
    var n, m := plan[k].nodes[x], plan[l].nodes[y];
    if Addr(n) == Addr(m) {
      AddrInjective(n, m);
    }
    assert n.name == m.name && n.port == m.port;
    assert from[k].nodes[x].name == from[l].nodes[y].name;
  }

  lemma {:induction false} ReadyFours(plan: seq<Chunk>, from: seq<Chunk>, ids: map<(string, int), string>)
    requires Ready(plan, from, ids)
    ensures |plan| == |from| && Fours(plan) && |NodesOf(plan)| == 4 * |plan| &&
      Rank(NodesOf(plan), 4 * |plan|) == 2 * |plan|
  {
    hide Dealt, NodesOf, Rank;
    forall k, x | 0 <= k < |plan| && 0 <= x < 4
      ensures |plan[k].nodes| == 4 && plan[k].nodes[x].role == if x % 2 == 0 then Master else Slave
    {
      ReadyNode(plan, from, ids, k, x);
    }
    assert forall k :: 0 <= k < |plan| ==> |plan[k].nodes| == 4 && plan[k].nodes[0].role == Master;
    ChunkRank(plan, |plan|);
  }

  // ---------------------------------------------------------------- every slot is served

  /** The proxy knows slot `s` by master `x` of chunk `k`, and by that master's slave on the chunk's other host. */
  ghost predicate ServedBy(plan: seq<Chunk>, p: Parsed, s: int, k: int, x: int) {
    && 0 <= k < |plan| && |plan[k].nodes| == 4 && (x == 0 || x == 2) && 0 <= s < SLOTS
    && |plan[k].nodes[x].slots| == 1 && InRange(plan[k].nodes[x].slots[0], s)
    && p.NodeSlots? && |p.slots| == |p.slaveSlots| == SLOTS
    && p.slots[s] == Addr(plan[k].nodes[x]) && p.slaveSlots[s] == [Addr(plan[k].nodes[3 - x])]
    && plan[k].nodes[3 - x].name != plan[k].nodes[x].name
  }

  ghost predicate Served(plan: seq<Chunk>, p: Parsed, s: int) { exists k, x :: ServedBy(plan, p, s, k, x) }

  /** The flat list of a ready plan is one the round trip speaks of. */
  lemma {:induction false} ReadyIsNamed(plan: seq<Chunk>, from: seq<Chunk>, ids: map<(string, int), string>)
    requires Ready(plan, from, ids)
    ensures Distinguished(NodesOf(plan)) && forall i :: 0 <= i < |NodesOf(plan)| ==> NamedNode(NodesOf(plan)[i])
  {
    hide Ready, NodesOf, NamedNode, Addr, Pad40;
    ReadyFours(plan, from, ids);
    var nodes := NodesOf(plan);
    forall i | 0 <= i < |nodes|
      ensures NamedNode(nodes[i])
    {
      FlatAt(plan, i / 4, i % 4);
      ReadyNode(plan, from, ids, i / 4, i % 4);
    }
    forall i, j | 0 <= i < j < |nodes|
      ensures Addr(nodes[i]) != Addr(nodes[j]) && Pad40(nodes[i].runId) != Pad40(nodes[j].runId)
    {
      FlatAt(plan, i / 4, i % 4);
      FlatAt(plan, j / 4, j % 4);
      if Addr(nodes[i]) == Addr(nodes[j]) || Pad40(nodes[i].runId) == Pad40(nodes[j].runId) {
        ReadyApart(plan, from, ids, i / 4, i % 4, j / 4, j % 4);
      }
    }
  }

  /** The one follower of a master is across its chunk. */
  lemma {:induction false} OneFollower(plan: seq<Chunk>, from: seq<Chunk>, ids: map<(string, int), string>, k: nat,
      x: nat, j: nat)
    requires Ready(plan, from, ids) && k < |plan| && (x == 0 || x == 2) && j < |NodesOf(plan)| == 4 * |plan|
    ensures Follows(NodesOf(plan), j, 4 * k + x) <==> j == 4 * k + (3 - x)
  {
    hide Ready, NodesOf, NamedNode, Pad40, Addr, Rank;
    ReadyFours(plan, from, ids);
    var l, y := j / 4, j % 4;
    FlatAt(plan, l, y);
    FlatAt(plan, k, x);
    ReadyNode(plan, from, ids, l, y);
    ReadyNode(plan, from, ids, k, x);
    if y % 2 == 1 && Pad40(plan[l].nodes[3 - y].runId) == Pad40(plan[k].nodes[x].runId) {
      ReadyApart(plan, from, ids, l, 3 - y, k, x);
    }
  }

  lemma {:induction false} ReadyDealt(plan: seq<Chunk>, from: seq<Chunk>, ids: map<(string, int), string>)
    requires Ready(plan, from, ids)
    ensures
      var nodes := NodesOf(plan);
      |nodes| == 4 * |plan| && Rank(nodes, |nodes|) > 0 && Dealt(nodes, Rank(nodes, |nodes|))
  {
    hide NodesOf, Rank, Dealt;
    ReadyFours(plan, from, ids);
  }

  /** Chunk and place of master `i` of the flat list. */
  lemma {:induction false} ServedAt(plan: seq<Chunk>, from: seq<Chunk>, ids: map<(string, int), string>, p: Parsed,
      s: int, i: nat)
    requires Ready(plan, from, ids) && 0 <= s < SLOTS && i < |NodesOf(plan)| == 4 * |plan|
    requires p.NodeSlots? && |p.slots| == |p.slaveSlots| == SLOTS
    requires
      var n := NodesOf(plan)[i];
      n.role == Master && |n.slots| == 1 && InRange(n.slots[0], s) && p.slots[s] == Addr(n)
    requires
      var nodes := NodesOf(plan);
      forall j :: OnlyFollower(nodes, j, i) ==> p.slaveSlots[s] == [Addr(nodes[j])]
    ensures ServedBy(plan, p, s, i / 4, i % 4)
  {
    hide Ready, NodesOf, NamedNode, Addr, Follows, InRange;
    ReadyFours(plan, from, ids);
    var nodes, k, x := NodesOf(plan), i / 4, i % 4;
    FlatAt(plan, k, x);
    FlatAt(plan, k, 3 - x);
    ReadyNode(plan, from, ids, k, x);
    ReadyNode(plan, from, ids, k, 3 - x);
    var j := 4 * k + (3 - x);
    forall m: nat | m < |nodes|
      ensures Follows(nodes, m, i) <==> m == j
    {
      OneFollower(plan, from, ids, k, x, m);
    }
    assert p.slaveSlots[s] == [Addr(nodes[j])];
  }

  /**
   Every slot of a cluster made from a plan is known to the proxy by exactly the master it was
   dealt to, with exactly that master's slave, which is on another host.
   */
  lemma {:induction false} EverySlotServed(plan: seq<Chunk>, from: seq<Chunk>, ids: map<(string, int), string>,
      name: string, port: int, p: Parsed, s: int)
    requires Ready(plan, from, ids) && 0 <= s < SLOTS
    requires Agrees(ScanLines(Kept(Split(NodeLines(NodesOf(plan), name, port), '\n'))), p)
    ensures Served(plan, p, s)
  {
    hide Ready, Agrees, ScanLines, Kept, Split, NodeLines, NodesOf, Distinguished, NamedNode, Addr, Rank, Dealt,
         Follows, InRange, Holder;
    ReadyDealt(plan, from, ids);
    ReadyIsNamed(plan, from, ids);
    var i := DealtPlanRecovered(NodesOf(plan), name, port, p, s);
    ServedAt(plan, from, ids, p, s, i);
  }

  /**
   The whole way: plan, deal, wire, print, parse. If a plan comes out and the host names and
   run ids can stand in a node line, the proxy knows a master and a slave for every slot.
   */
  method Deploy(masterNum: nat, mem: real, cpu: real, offers: seq<Offer>, ids: map<(string, int), string>, name: string,
      port: int)
    returns (r: Outcome, chunks: seq<Chunk>, p: Parsed)
    requires mem > 0.0 && cpu > 0.0 && DistinctHosts(offers)
    ensures r.Planned? ==> GoodPlan(r.chunks, masterNum, offers)
    ensures r.Planned? && NoRepeatedPorts(offers) && Hostnames(r.chunks) && PaddedIds(r.chunks, ids) ==>
      Wired(chunks, r.chunks, ids) && forall s :: 0 <= s < SLOTS ==> Served(chunks, p, s)
  {
    hide LevelPlan, WithinOffers, Overflows, LevelShareFits, EarlyFailure, Served, Agrees, ScanLines, Kept,
         Split, NodeLines, NodesOf, Dealt, PaddedIds, Hostnames, DistinctAddresses, CrossHost, WiredChunk,
         NodesOnHost, UsesOffers, ReadsPlan;
    r := Chunks(masterNum, mem, cpu, offers);
    chunks, p := [], ParseError;
    if !r.Planned? {
      return;
    }
    FourEach(r.chunks);
    assert NodesOnHost(r.chunks, name) < masterNum;
    var plan := new Chunk[|r.chunks|](i requires 0 <= i < |r.chunks| => r.chunks[i]);
    assert plan[..] == r.chunks;
    Create(plan, masterNum, ids);
    chunks := plan[..];
    var text := PrintNodes(chunks, name, port);
    p := ParseSlots(text);
    if NoRepeatedPorts(offers) && Hostnames(r.chunks) && PaddedIds(r.chunks, ids) {
      forall s | 0 <= s < SLOTS
        ensures Served(chunks, p, s)
      {
        EverySlotServed(chunks, r.chunks, ids, name, port, p, s);
      }
    }
  }

  lemma {:induction false} FourEach(plan: seq<Chunk>)
    requires AllCross(plan)
    ensures forall k :: 0 <= k < |plan| ==> |plan[k].nodes| == 4
  {
    assert forall k :: 0 <= k < |plan| ==> CrossHost(plan[k]);
  }
}
