/**
 Who owns which key: consequences of pkg/hashkit/ketama.go for routing, and the pingers of
 proxy/forwarder.go that eject and re-add nodes.
 */
module RingRouting {
  import opened Common
  import opened Ketama
  import Decimal

  /** No two nodes on the ring have a tick in the same place. */
  ghost predicate Apart(ticks: seq<Tick>) {
    forall i, j :: 0 <= i < |ticks| && 0 <= j < |ticks| && ticks[i].hash == ticks[j].hash ==>
      ticks[i].node == ticks[j].node
  }

  // ---------------------------------------------------------------- owners

  /** The tick that takes value `h`: the nearest at or after it, else the smallest. */
  ghost predicate Takes(digest: Digest, nodes: seq<string>, spots: seq<int>, h: nat, t: Tick)
    requires Weighted(nodes, spots)
  {
    && OnRing(digest, nodes, spots, t)
    && ((t.hash >= h && forall u :: OnRing(digest, nodes, spots, u) && u.hash >= h ==> t.hash <= u.hash)
        || (forall u :: OnRing(digest, nodes, spots, u) ==> u.hash < h && t.hash <= u.hash))
  }

  ghost predicate Owns(digest: Digest, nodes: seq<string>, spots: seq<int>, h: nat, node: string)
    requires Weighted(nodes, spots)
  {
    exists t :: Takes(digest, nodes, spots, h, t) && t.node == node
  }

  lemma {:induction false} ScanIsFirst(ticks: seq<Tick>, h: nat, from: nat)
    requires ticks != [] && from <= |ticks| && forall i :: 0 <= i < from ==> ticks[i].hash < h
    ensures
      var k := ScanFrom(ticks, h, from);
      || (ticks[k].hash >= h && forall i :: 0 <= i < k ==> ticks[i].hash < h)
      || (k == 0 && forall i :: 0 <= i < |ticks| ==> ticks[i].hash < h)
    decreases |ticks| - from
  {
    if from < |ticks| && ticks[from].hash < h {
      ScanIsFirst(ticks, h, from + 1);
    }
  }

  /** What `GetNode` returns is the owner. */
  lemma {:induction false} ScanFindsOwner(digest: Digest, nodes: seq<string>, spots: seq<int>, ticks: seq<Tick>, h: nat)
    requires Built(digest, nodes, spots, ticks) && ticks != []
    ensures Owns(digest, nodes, spots, h, ticks[Scan(ticks, h)].node)
  {
    hide OnRing;
    ScanIsFirst(ticks, h, 0);
    var k := Scan(ticks, h);
    var t := ticks[k];
    assert t in ticks;
    assert forall u :: OnRing(digest, nodes, spots, u) ==> u in ticks;
    assert Takes(digest, nodes, spots, h, t);
  }

  ghost predicate OneOwner(digest: Digest, nodes: seq<string>, spots: seq<int>)
    requires Weighted(nodes, spots)
  {
    forall h, a, b :: Owns(digest, nodes, spots, h, a) && Owns(digest, nodes, spots, h, b) ==> a == b
  }

  lemma {:induction false} ApartTicks(digest: Digest, nodes: seq<string>, spots: seq<int>, ticks: seq<Tick>, t: Tick,
      u: Tick)
    requires Built(digest, nodes, spots, ticks) && Apart(ticks)
    requires OnRing(digest, nodes, spots, t) && OnRing(digest, nodes, spots, u) && t.hash == u.hash
    ensures t.node == u.node
  {
    hide OnRing;
    assert t in ticks && u in ticks;
  }

  lemma {:induction false} OwnerUnique(digest: Digest, nodes: seq<string>, spots: seq<int>, ticks: seq<Tick>, h: nat,
      a: string, b: string)
    requires Built(digest, nodes, spots, ticks) && Apart(ticks)
    requires Owns(digest, nodes, spots, h, a) && Owns(digest, nodes, spots, h, b)
    ensures a == b
  {
    hide OnRing, Apart;
    var t :| Takes(digest, nodes, spots, h, t) && t.node == a;
    var u :| Takes(digest, nodes, spots, h, u) && u.node == b;
    assert t.hash == u.hash;
    ApartTicks(digest, nodes, spots, ticks, t, u);
  }

  /** A tick takes the value it stands on. */
  lemma {:induction false} TickTakesItself(digest: Digest, nodes: seq<string>, spots: seq<int>, t: Tick)
    requires Weighted(nodes, spots) && OnRing(digest, nodes, spots, t)
    ensures Owns(digest, nodes, spots, t.hash, t.node)
  {
    hide OnRing;
    assert Takes(digest, nodes, spots, t.hash, t);
  }

  /** Routing is a function of the ring's ticks if and only if no two nodes' ticks collide. */
  lemma {:induction false} OneOwnerExactly(digest: Digest, nodes: seq<string>, spots: seq<int>, ticks: seq<Tick>)
    requires Built(digest, nodes, spots, ticks)
    ensures Apart(ticks) <==> OneOwner(digest, nodes, spots)
  {
    hide OnRing, Owns;
    if Apart(ticks) {
      forall h, a, b | Owns(digest, nodes, spots, h, a) && Owns(digest, nodes, spots, h, b)
        ensures a == b
      {
        OwnerUnique(digest, nodes, spots, ticks, h, a, b);
      }
    }
    if OneOwner(digest, nodes, spots) {
      forall i, j | 0 <= i < |ticks| && 0 <= j < |ticks| && ticks[i].hash == ticks[j].hash
        ensures ticks[i].node == ticks[j].node
      {
        assert ticks[i] in ticks && ticks[j] in ticks;
        TickTakesItself(digest, nodes, spots, ticks[i]);
        TickTakesItself(digest, nodes, spots, ticks[j]);
      }
    }
  }

  /** What a lookup finds is the one owner. */
  lemma {:induction false} OwnerIsFound(digest: Digest, nodes: seq<string>, spots: seq<int>, ticks: seq<Tick>, h: nat,
      a: string)
    requires Built(digest, nodes, spots, ticks) && Apart(ticks) && Owns(digest, nodes, spots, h, a)
    ensures ticks != [] && ticks[Scan(ticks, h)].node == a
  {
    hide Apart, Owns, Scan;
    OwnedIsNotEmpty(digest, nodes, spots, ticks, h, a);
    ScanFindsOwner(digest, nodes, spots, ticks, h);
    OwnerUnique(digest, nodes, spots, ticks, h, ticks[Scan(ticks, h)].node, a);
  }

  /** A ring with fewer ticks has no new collisions. */
  lemma {:induction false} FewerApart(ticks: seq<Tick>, fewer: seq<Tick>)
    requires Apart(ticks) && forall t :: t in fewer ==> t in ticks
    ensures Apart(fewer)
  {
    assert forall i :: 0 <= i < |fewer| ==> fewer[i] in ticks;
  }

  /** Names that agree as far as host names go name the same virtual hosts. */
  lemma {:induction false} LongNamesAgree(a: string, b: string, p: nat)
    requires |a| >= 64 && |b| >= 64 && a[..64] == b[..64]
    ensures HostName(a, p) == a[..64] == HostName(b, p)
  {
    hide Decimal.Itoa;
    assert (a + "-" + Decimal.Itoa(p))[..MAX_HOST_LEN] == a[..MAX_HOST_LEN];
    assert (b + "-" + Decimal.Itoa(p))[..MAX_HOST_LEN] == b[..MAX_HOST_LEN];
  }

  /**
   Two equally weighted nodes whose names agree in their first 64 characters collide on every
   tick, whatever the hash: routing between them is up to the sort.
   */
  lemma {:induction false} LongNamesCollide(digest: Digest, nodes: seq<string>, spots: seq<int>, w: int,
      ticks: seq<Tick>, a: string, b: string)
    requires w > 0 && AllWeigh(spots, w) && Built(digest, nodes, spots, ticks)
    requires a in nodes && b in nodes && a != b
    requires |a| >= 64 && |b| >= 64 && a[..64] == b[..64]
    ensures !Apart(ticks)
    ensures exists h :: Owns(digest, nodes, spots, h, a) && Owns(digest, nodes, spots, h, b)
  {
    LongNamesAgree(a, b, 0);
    var t, u := Tick(a, Point(digest, a, 0, 0)), Tick(b, Point(digest, b, 0, 0));
    assert t in NodeTicks(digest, a, 40) && u in NodeTicks(digest, b, 40);
    EqualTicks(digest, nodes, spots, w, t);
    EqualTicks(digest, nodes, spots, w, u);
    hide OnRing, NodeTicks, HostName, Owns;
    assert t in ticks && u in ticks && t.hash == u.hash;
    TickTakesItself(digest, nodes, spots, t);
    TickTakesItself(digest, nodes, spots, u);
  }

  // ---------------------------------------------------------------- minimal disruption

  ghost predicate AllWeigh(spots: seq<int>, w: int) { forall i :: 0 <= i < |spots| ==> spots[i] == w }

  lemma {:induction false} EqualTotal(spots: seq<int>, w: int)
    requires AllWeigh(spots, w)
    ensures Sum(spots) == |spots| * w
  {
    if spots != [] {
      EqualTotal(spots[..|spots| - 1], w);
      assert |spots| * w == (|spots| - 1) * w + w;
    }
  }

  lemma {:induction false} FortyPoints(n: nat, w: int, total: int)
    requires n > 0 && w > 0 && total == n * w
    ensures total > 0 && Rounds(n, w, total) == 40
  {
    hide Rounds;
    assert total >= w;
    assert 40 * n * w == 40 * total;
    WholeShare(40, total);
    RoundsExactly(n, w, total);
  }

  lemma {:induction false} WholeShare(k: nat, t: nat)
    requires t > 0
    ensures k * t % t == 0 && k * t / t == k
  {
    var q, r := k * t / t, k * t % t;
    var d := k - q;
    assert d * t == r;
    assert d == 0;
  }

  /** With equal weights a node's ticks do not depend on the other nodes. */
  lemma {:induction false} EqualTicks(digest: Digest, nodes: seq<string>, spots: seq<int>, w: int, t: Tick)
    requires w > 0 && |nodes| == |spots| && AllWeigh(spots, w)
    ensures Weighted(nodes, spots)
    ensures OnRing(digest, nodes, spots, t) <==> t.node in nodes && t in NodeTicks(digest, t.node, 40)
  {
    assert Positive(spots);
    if nodes != [] {
      EqualTotal(spots, w);
      FortyPoints(|nodes|, w, Sum(spots));
    }
    hide Rounds;
    assert forall i :: 0 <= i < |nodes| ==> RoundsAt(nodes, spots, i) == 40;
  }

  lemma {:induction false} DeletedMembers(nodes: seq<string>, spots: seq<int>, n: string, w: int)
    requires |nodes| == |spots| && AllWeigh(spots, w)
    ensures AllWeigh(Deleted(nodes, spots, n).1, w)
    ensures forall m :: m in Deleted(nodes, spots, n).0 <==> m in nodes && m != n
  {
    if nodes != [] {
      var k := |nodes| - 1;
      assert nodes == nodes[..k] + [nodes[k]];
      DeletedMembers(nodes[..k], spots[..k], n, w);
    }
  }

  /** Fewer ticks: who keeps a tick keeps its values. */
  lemma {:induction false} KeepsOwner(digest: Digest, nodes: seq<string>, spots: seq<int>, less: seq<string>,
      lessSpots: seq<int>, h: nat, a: string)
    requires Weighted(nodes, spots) && Weighted(less, lessSpots) && Owns(digest, nodes, spots, h, a)
    requires forall t :: OnRing(digest, less, lessSpots, t) ==> OnRing(digest, nodes, spots, t)
    requires forall t :: OnRing(digest, nodes, spots, t) && t.node == a ==> OnRing(digest, less, lessSpots, t)
    ensures Owns(digest, less, lessSpots, h, a)
  {
    hide OnRing;
    var t :| Takes(digest, nodes, spots, h, t) && t.node == a;
    assert Takes(digest, less, lessSpots, h, t);
  }

  /** With equal weights, deleting a node moves only the keys it owned. */
  lemma {:induction false} DelMovesOnlyItsKeys(digest: Digest, nodes: seq<string>, spots: seq<int>, w: int, x: string,
      h: nat, a: string)
    requires w > 0 && |nodes| == |spots| && AllWeigh(spots, w) && Weighted(nodes, spots)
    requires Owns(digest, nodes, spots, h, a) && a != x
    ensures
      var (less, lessSpots) := Deleted(nodes, spots, x);
      Weighted(less, lessSpots) && Owns(digest, less, lessSpots, h, a)
  {
    var (less, lessSpots) := Deleted(nodes, spots, x);
    DeletedMembers(nodes, spots, x, w);
    forall t
      ensures OnRing(digest, nodes, spots, t) <==> t.node in nodes && t in NodeTicks(digest, t.node, 40)
      ensures Weighted(less, lessSpots)
      ensures OnRing(digest, less, lessSpots, t) <==> t.node in less && t in NodeTicks(digest, t.node, 40)
    {
      EqualTicks(digest, nodes, spots, w, t);
      EqualTicks(digest, less, lessSpots, w, t);
    }
    EqualTicks(digest, less, lessSpots, w, Tick("", 0));
    hide OnRing, NodeTicks, Deleted;
    KeepsOwner(digest, nodes, spots, less, lessSpots, h, a);
  }

  /** With equal weights, adding a node moves keys only to it. */
  lemma {:induction false} AddMovesOnlyToIt(digest: Digest, nodes: seq<string>, spots: seq<int>, w: int, y: string,
      h: nat, a: string)
    requires w > 0 && |nodes| == |spots| && AllWeigh(spots, w) && y !in nodes && Weighted(nodes, spots)
    requires Weighted(nodes + [y], spots + [w]) && Owns(digest, nodes + [y], spots + [w], h, a) && a != y
    ensures Added(nodes, spots, y, w) == (nodes + [y], spots + [w])
    ensures Owns(digest, nodes, spots, h, a)
  {
    var more, moreSpots := nodes + [y], spots + [w];
    assert AllWeigh(moreSpots, w);
    forall t
      ensures OnRing(digest, nodes, spots, t) <==> t.node in nodes && t in NodeTicks(digest, t.node, 40)
      ensures OnRing(digest, more, moreSpots, t) <==> t.node in more && t in NodeTicks(digest, t.node, 40)
    {
      EqualTicks(digest, nodes, spots, w, t);
      EqualTicks(digest, more, moreSpots, w, t);
    }
    hide OnRing, NodeTicks;
    KeepsOwner(digest, more, moreSpots, nodes, spots, h, a);
  }

  /** The same for lookups: only a key that was found on `x` is found elsewhere. */
  lemma {:induction false} DelKeepsLookups(digest: Digest, nodes: seq<string>, spots: seq<int>, w: int, x: string,
      ticks: seq<Tick>, fewer: seq<Tick>, h: nat)
    requires w > 0 && |nodes| == |spots| && AllWeigh(spots, w) && Built(digest, nodes, spots, ticks) && Apart(ticks)
    requires var (less, lessSpots) := Deleted(nodes, spots, x); Built(digest, less, lessSpots, fewer)
    requires ticks != [] && ticks[Scan(ticks, h)].node != x
    ensures fewer != [] && fewer[Scan(fewer, h)].node == ticks[Scan(ticks, h)].node
  {
    hide Apart, Owns, Scan, OnRing, Deleted, AllWeigh;
    var (less, lessSpots) := Deleted(nodes, spots, x);
    var a := ticks[Scan(ticks, h)].node;
    ScanFindsOwner(digest, nodes, spots, ticks, h);
    DelMovesOnlyItsKeys(digest, nodes, spots, w, x, h, a);
    forall t | t in fewer
      ensures t in ticks
    {
      DelTakesTicks(digest, nodes, spots, w, x, t);
    }
    FewerApart(ticks, fewer);
    OwnerIsFound(digest, less, lessSpots, fewer, h, a);
  }

  lemma {:induction false} DelTakesTicks(digest: Digest, nodes: seq<string>, spots: seq<int>, w: int, x: string,
      t: Tick)
    requires w > 0 && |nodes| == |spots| && AllWeigh(spots, w) && Weighted(nodes, spots)
    requires
      var (less, lessSpots) := Deleted(nodes, spots, x);
      Weighted(less, lessSpots) && OnRing(digest, less, lessSpots, t)
    ensures OnRing(digest, nodes, spots, t)
  {
    hide OnRing, NodeTicks, Deleted;
    var (less, lessSpots) := Deleted(nodes, spots, x);
    DeletedMembers(nodes, spots, x, w);
    EqualTicks(digest, nodes, spots, w, t);
    EqualTicks(digest, less, lessSpots, w, t);
  }

  /** And after adding `y` every key is found on `y` or where it was. */
  lemma {:induction false} AddKeepsLookups(digest: Digest, nodes: seq<string>, spots: seq<int>, w: int, y: string,
      ticks: seq<Tick>, more: seq<Tick>, h: nat)
    requires w > 0 && |nodes| == |spots| && AllWeigh(spots, w) && y !in nodes && Built(digest, nodes, spots, ticks)
    requires Built(digest, nodes + [y], spots + [w], more) && Apart(more) && more != []
    ensures more[Scan(more, h)].node == y || (ticks != [] && ticks[Scan(ticks, h)].node == more[Scan(more, h)].node)
  {
    hide Apart, Owns, Scan, OnRing;
    var a := more[Scan(more, h)].node;
    if a != y {
      ScanFindsOwner(digest, nodes + [y], spots + [w], more, h);
      AddMovesOnlyToIt(digest, nodes, spots, w, y, h, a);
      forall t | t in ticks
        ensures t in more
      {
        AddKeepsTicks(digest, nodes, spots, w, y, t);
      }
      FewerApart(more, ticks);
      OwnerIsFound(digest, nodes, spots, ticks, h, a);
    }
  }

  lemma {:induction false} AddKeepsTicks(digest: Digest, nodes: seq<string>, spots: seq<int>, w: int, y: string,
      t: Tick)
    requires w > 0 && |nodes| == |spots| && AllWeigh(spots, w) && Weighted(nodes, spots) &&
      Weighted(nodes + [y], spots + [w])
    requires OnRing(digest, nodes, spots, t)
    ensures OnRing(digest, nodes + [y], spots + [w], t)
  {
    hide OnRing, NodeTicks;
    assert AllWeigh(spots + [w], w);
    EqualTicks(digest, nodes, spots, w, t);
    EqualTicks(digest, nodes + [y], spots + [w], w, t);
  }

  // ---------------------------------------------------------------- pingers

  /** The servers as configured: names and weights. */
  datatype Config = Config(names: seq<string>, weights: seq<int>, failLimit: int)

  ghost predicate ValidConfig(c: Config) {
    && |c.names| == |c.weights| && Positive(c.weights)
    && forall i, j :: 0 <= i < j < |c.names| ==> c.names[i] != c.names[j]
  }

  /** One pinger: consecutive failures, and whether it has taken its node out. */
  datatype Pinger = Pinger(failure: nat, del: bool)

  datatype Proxy = Proxy(nodes: seq<string>, spots: seq<int>, pingers: seq<Pinger>)

  /** The outcome of one ping of server `i`. */
  datatype Ping = Ping(i: nat, ok: bool)

  function Start(c: Config): Proxy {
    Proxy(c.names, c.weights, seq(|c.names|, _ => Pinger(0, false)))
  }

  /** What one round of `processPing` makes of a pinger and the ring's node list. */
  function RoundOf(p: Pinger, nodes: seq<string>, spots: seq<int>, name: string, weight: int, limit: int,
      ok: bool): (Pinger, (seq<string>, seq<int>))
    requires |nodes| == |spots|
  {
    if ok then (Pinger(0, false), if p.del then Added(nodes, spots, name, weight) else (nodes, spots))
    else if p.failure + 1 < limit || p.del then (Pinger(p.failure + 1, p.del), (nodes, spots))
    else (Pinger(p.failure + 1, true), Deleted(nodes, spots, name))
  }

  /** The loop of one pinger; the outcome of each ping comes from outside. */
  class PingLoop {
    const alias: string
    const weight: int
    const failLimit: int
    var failure: nat
    var del: bool

    constructor (alias: string, weight: int, failLimit: int)
      ensures this.alias == alias && this.weight == weight && this.failLimit == failLimit
      ensures failure == 0 && !del
    {
      this.alias, this.weight, this.failLimit := alias, weight, failLimit;
      failure, del := 0, false;
    }

    method Round(ring: HashRing, ok: bool)
      requires ring.Valid() && weight > 0
      modifies this, ring
      ensures ring.Valid()
      ensures (Pinger(failure, del), (ring.nodes, ring.spots))
           == RoundOf(Pinger(old(failure), old(del)), old(ring.nodes), old(ring.spots), alias, weight, failLimit, ok)
    {
      if ok {
        failure := 0;
        if del {
          del := false;
          ring.AddNode(alias, weight);
        }
        return;
      }
      failure := failure + 1;
      if failure < failLimit {
        return;
      }
      if !del {
        ring.DelNode(alias);
        del := true;
      }
    }
  }

  /** One round of the pinger of server `e.i`. */
  function Pinged(c: Config, s: Proxy, e: Ping): Proxy
    requires e.i < |c.names| == |s.pingers| && |c.weights| == |c.names| && |s.nodes| == |s.spots|
  {
    var (p, (nodes, spots)) := RoundOf(s.pingers[e.i], s.nodes, s.spots, c.names[e.i], c.weights[e.i], c.failLimit,
      e.ok);
    Proxy(nodes, spots, s.pingers[e.i := p])
  }

  /** Failures of server `i` since its last success. */
  function Trailing(run: seq<Ping>, i: nat): nat {
    if run == [] then 0
    else
      var last := run[|run| - 1];
      if last.i != i then Trailing(run[..|run| - 1], i)
      else if last.ok then 0
      else Trailing(run[..|run| - 1], i) + 1
  }

  predicate Ejected(c: Config, run: seq<Ping>, i: nat) {
    Trailing(run, i) >= 1 && Trailing(run, i) >= c.failLimit
  }

  ghost predicate Pings(c: Config, run: seq<Ping>) {
    forall k :: 0 <= k < |run| ==> run[k].i < |c.names|
  }

  /** The configured servers whose pinger has not taken them out, as a fresh node list. */
  function Present(c: Config, out: seq<bool>, k: nat): (r: (seq<string>, seq<int>))
    requires k <= |c.names| == |c.weights| == |out|
    ensures |r.0| == |r.1|
  {
    if k == 0 then ([], [])
    else
      var (ns, ws) := Present(c, out, k - 1);
      if out[k - 1] then (ns, ws) else (ns + [c.names[k - 1]], ws + [c.weights[k - 1]])
  }

  /** `node` is configured with weight `spot`. */
  ghost predicate Entry(c: Config, node: string, spot: int) {
    |c.names| == |c.weights| && exists i :: 0 <= i < |c.names| && c.names[i] == node && c.weights[i] == spot
  }

  ghost predicate WeightsMatch(c: Config, nodes: seq<string>, spots: seq<int>) {
    |nodes| == |spots| && |c.names| == |c.weights| && forall j :: 0 <= j < |nodes| ==> Entry(c, nodes[j], spots[j])
  }

  function Outs(s: Proxy): (out: seq<bool>)
    ensures |out| == |s.pingers| && forall i :: 0 <= i < |out| ==> out[i] == s.pingers[i].del
  {
    seq(|s.pingers|, i requires 0 <= i < |s.pingers| => s.pingers[i].del)
  }

  /** A node list that is the present servers in some order. */
  ghost predicate Lists(c: Config, nodes: seq<string>, spots: seq<int>, out: seq<bool>) {
    && |out| == |c.names| && WeightsMatch(c, nodes, spots) && Distinct(nodes)
    && (forall i :: 0 <= i < |out| ==> (c.names[i] in nodes <==> !out[i]))
    && |nodes| == |Present(c, out, |out|).0| && Sum(spots) == Sum(Present(c, out, |out|).1)
  }

  /** Size and weight of the present servers among the first `k`. */
  ghost function Mass(c: Config, out: seq<bool>, k: nat): (int, int)
    requires k <= |c.names| == |c.weights| == |out|
  {
    if k == 0 then (0, 0)
    else
      var (n, w) := Mass(c, out, k - 1);
      if out[k - 1] then (n, w) else (n + 1, w + c.weights[k - 1])
  }

  lemma {:induction false} PresentMass(c: Config, out: seq<bool>, k: nat)
    requires k <= |c.names| == |c.weights| == |out|
    ensures (|Present(c, out, k).0|, Sum(Present(c, out, k).1)) == Mass(c, out, k)
  {
    if k > 0 {
      PresentMass(c, out, k - 1);
      SumSnoc(Present(c, out, k - 1).1, c.weights[k - 1]);
    }
  }

  lemma {:induction false} MassOut(c: Config, out: seq<bool>, i: nat, k: nat)
    requires k <= |c.names| == |c.weights| == |out| && i < |out| && !out[i]
    ensures
      var (n, w), (m, v) := Mass(c, out, k), Mass(c, out[i := true], k);
      if k <= i then (n, w) == (m, v) else (n, w) == (m + 1, v + c.weights[i])
  {
    if k > 0 {
      MassOut(c, out, i, k - 1);
    }
  }

  /** Taking a server out of the present ones. */
  lemma {:induction false} PresentOut(c: Config, out: seq<bool>, i: nat)
    requires |c.names| == |c.weights| == |out| && i < |out| && !out[i]
    ensures
      var was, now := Present(c, out, |out|), Present(c, out[i := true], |out|);
      |was.0| == |now.0| + 1 && Sum(was.1) == Sum(now.1) + c.weights[i]
  {
    PresentMass(c, out, |out|);
    PresentMass(c, out[i := true], |out|);
    MassOut(c, out, i, |out|);
  }

  lemma {:induction false} PresentList(c: Config, out: seq<bool>, k: nat)
    requires ValidConfig(c) && k <= |c.names| == |out|
    ensures
      var (ns, ws) := Present(c, out, k);
      && WeightsMatch(c, ns, ws) && Distinct(ns)
      && forall i :: 0 <= i < |out| ==> (c.names[i] in ns <==> i < k && !out[i])
  {
    hide Entry;
    if k > 0 {
      PresentList(c, out, k - 1);
      ConfigMatches(c);
    }
  }

  lemma {:induction false} DeletedTotals(nodes: seq<string>, spots: seq<int>, n: string, w: int)
    requires |nodes| == |spots| && Distinct(nodes)
    requires forall j :: 0 <= j < |nodes| && nodes[j] == n ==> spots[j] == w
    ensures
      var (ns, ss) := Deleted(nodes, spots, n);
      && |ns| == |nodes| - (if n in nodes then 1 else 0)
      && Sum(ss) == Sum(spots) - (if n in nodes then w else 0)
  {
    if nodes != [] {
      var k := |nodes| - 1;
      var init, initSpots := nodes[..k], spots[..k];
      assert nodes == init + [nodes[k]] && nodes[k] !in init;
      DeletedTotals(init, initSpots, n, w);
      SumSnoc(Deleted(init, initSpots, n).1, spots[k]);
    }
  }

  lemma {:induction false} DeletedKeeps(c: Config, nodes: seq<string>, spots: seq<int>, n: string)
    requires Distinct(nodes) && WeightsMatch(c, nodes, spots)
    ensures
      var (ns, ss) := Deleted(nodes, spots, n);
      && Distinct(ns) && WeightsMatch(c, ns, ss)
      && forall m :: m in ns <==> m in nodes && m != n
  {
    if nodes != [] {
      var k := |nodes| - 1;
      LastNode(c, nodes, spots);
      DeletedKeeps(c, nodes[..k], spots[..k], n);
      if nodes[k] != n {
        var (ns, ss) := Deleted(nodes[..k], spots[..k], n);
        hide WeightsMatch, Entry;
        MatchSnoc(c, ns, ss, nodes[k], spots[k]);
      }
    }
  }

  lemma {:induction false} LastNode(c: Config, nodes: seq<string>, spots: seq<int>)
    requires nodes != [] && Distinct(nodes) && WeightsMatch(c, nodes, spots)
    ensures
      var k := |nodes| - 1;
      && Distinct(nodes[..k]) && WeightsMatch(c, nodes[..k], spots[..k]) && Entry(c, nodes[k], spots[k])
      && nodes[k] !in nodes[..k] && nodes == nodes[..k] + [nodes[k]]
  {
    hide Entry;
  }

  lemma {:induction false} MatchSnoc(c: Config, nodes: seq<string>, spots: seq<int>, node: string, spot: int)
    requires WeightsMatch(c, nodes, spots) && Entry(c, node, spot)
    ensures WeightsMatch(c, nodes + [node], spots + [spot])
  {
    hide Entry;
  }

  lemma {:induction false} WeightIs(c: Config, nodes: seq<string>, spots: seq<int>, i: nat, j: nat)
    requires ValidConfig(c) && WeightsMatch(c, nodes, spots) && i < |c.names| && j < |nodes| && nodes[j] == c.names[i]
    ensures spots[j] == c.weights[i]
  {
    var k :| 0 <= k < |c.names| && c.names[k] == nodes[j] && c.weights[k] == spots[j];
    assert k == i;
  }

  lemma {:induction false} EjectKeepsLists(c: Config, nodes: seq<string>, spots: seq<int>, out: seq<bool>, i: nat)
    requires ValidConfig(c) && Lists(c, nodes, spots, out) && i < |out| && !out[i]
    ensures
      var (ns, ss) := Deleted(nodes, spots, c.names[i]);
      Lists(c, ns, ss, out[i := true])
  {
    hide Present, Sum, Deleted;
    forall j | 0 <= j < |nodes| && nodes[j] == c.names[i]
      ensures spots[j] == c.weights[i]
    {
      WeightIs(c, nodes, spots, i, j);
    }
    DeletedTotals(nodes, spots, c.names[i], c.weights[i]);
    DeletedKeeps(c, nodes, spots, c.names[i]);
    PresentOut(c, out, i);
  }

  lemma {:induction false} ReaddKeepsLists(c: Config, nodes: seq<string>, spots: seq<int>, out: seq<bool>, i: nat)
    requires ValidConfig(c) && Lists(c, nodes, spots, out) && i < |out| && out[i]
    ensures
      var (ns, ss) := Added(nodes, spots, c.names[i], c.weights[i]);
      Lists(c, ns, ss, out[i := false])
  {
    var back := out[i := false];
    assert back[i := true] == out;
    PresentOut(c, back, i);
    SumSnoc(spots, c.weights[i]);
  }

  /** The state after a run of pings, in any interleaving of the pingers. */
  function State(c: Config, run: seq<Ping>): (s: Proxy)
    requires |c.names| == |c.weights| && Pings(c, run)
    ensures |s.pingers| == |c.names| && |s.nodes| == |s.spots|
  {
    if run == [] then Start(c) else Pinged(c, State(c, run[..|run| - 1]), run[|run| - 1])
  }

  ghost predicate Tracks(c: Config, run: seq<Ping>, s: Proxy) {
    |s.pingers| == |c.names| &&
    forall i :: 0 <= i < |c.names| ==>
      s.pingers[i].failure == Trailing(run, i) && s.pingers[i].del == Ejected(c, run, i)
  }

  lemma {:induction false} PingersTrack(c: Config, run: seq<Ping>)
    requires |c.names| == |c.weights| && Pings(c, run)
    ensures Tracks(c, run, State(c, run))
  {
    if run != [] {
      PingersTrack(c, run[..|run| - 1]);
    }
  }

  lemma {:induction false} PingKeepsLists(c: Config, s: Proxy, e: Ping)
    requires ValidConfig(c) && |s.pingers| == |c.names| && |s.nodes| == |s.spots| && e.i < |c.names|
    requires Lists(c, s.nodes, s.spots, Outs(s))
    ensures
      var t := Pinged(c, s, e);
      Lists(c, t.nodes, t.spots, Outs(t))
  {
    var t := Pinged(c, s, e);
    hide Lists;
    assert Outs(t) == Outs(s)[e.i := t.pingers[e.i].del];
    if e.ok && s.pingers[e.i].del {
      ReaddKeepsLists(c, s.nodes, s.spots, Outs(s), e.i);
    } else if !e.ok && !(s.pingers[e.i].failure + 1 < c.failLimit) && !s.pingers[e.i].del {
      EjectKeepsLists(c, s.nodes, s.spots, Outs(s), e.i);
    } else {
      assert Outs(t) == Outs(s);
    }
  }

  lemma {:induction false} AllIn(c: Config, out: seq<bool>, k: nat)
    requires k <= |c.names| == |c.weights| == |out| && forall i :: 0 <= i < |out| ==> !out[i]
    ensures Present(c, out, k) == (c.names[..k], c.weights[..k])
  {
    if k > 0 {
      AllIn(c, out, k - 1);
      assert c.names[..k] == c.names[..k - 1] + [c.names[k - 1]];
      assert c.weights[..k] == c.weights[..k - 1] + [c.weights[k - 1]];
    }
  }

  lemma {:induction false} ConfigMatches(c: Config)
    requires |c.names| == |c.weights|
    ensures WeightsMatch(c, c.names, c.weights)
  {
    forall j | 0 <= j < |c.names|
      ensures Entry(c, c.names[j], c.weights[j])
    {
    }
  }

  lemma {:induction false} StartLists(c: Config)
    requires ValidConfig(c)
    ensures Lists(c, c.names, c.weights, Outs(Start(c)))
  {
    hide Present, Sum, WeightsMatch, Positive;
    ConfigMatches(c);
    var out := Outs(Start(c));
    AllIn(c, out, |c.names|);
    assert c.names[..|c.names|] == c.names && c.weights[..|c.names|] == c.weights;
  }

  lemma {:induction false} RunKeepsLists(c: Config, run: seq<Ping>)
    requires ValidConfig(c) && Pings(c, run)
    ensures var s := State(c, run); Lists(c, s.nodes, s.spots, Outs(s))
  {
    hide Lists, Pinged, Outs;
    if run == [] {
      StartLists(c);
    } else {
      RunKeepsLists(c, run[..|run| - 1]);
      PingKeepsLists(c, State(c, run[..|run| - 1]), run[|run| - 1]);
    }
  }

  lemma {:induction false} PositiveSpots(c: Config, nodes: seq<string>, spots: seq<int>)
    requires ValidConfig(c) && WeightsMatch(c, nodes, spots)
    ensures Weighted(nodes, spots)
  {
    forall j | 0 <= j < |spots|
      ensures spots[j] > 0
    {
      var i :| 0 <= i < |c.names| && c.names[i] == nodes[j] && c.weights[i] == spots[j];
    }
  }

  /** Two lists of the same servers put the same ticks on the ring. */
  lemma {:induction false} SameTicks(digest: Digest, c: Config, a: seq<string>, aSpots: seq<int>, b: seq<string>,
      bSpots: seq<int>, out: seq<bool>, t: Tick)
    requires ValidConfig(c) && Lists(c, a, aSpots, out) && Lists(c, b, bSpots, out)
    requires Weighted(a, aSpots) && Weighted(b, bSpots) && OnRing(digest, a, aSpots, t)
    ensures OnRing(digest, b, bSpots, t)
  {
    var j :| 0 <= j < |a| && t in NodeTicks(digest, a[j], RoundsAt(a, aSpots, j));
    var i :| 0 <= i < |c.names| && c.names[i] == a[j] && c.weights[i] == aSpots[j];
    assert c.names[i] in b;
    var k :| 0 <= k < |b| && b[k] == c.names[i];
    WeightIs(c, b, bSpots, i, k);
    assert RoundsAt(b, bSpots, k) == RoundsAt(a, aSpots, j);
  }

  lemma {:induction false} ListsFacts(c: Config, nodes: seq<string>, spots: seq<int>, out: seq<bool>)
    requires ValidConfig(c) && Lists(c, nodes, spots, out)
    ensures Weighted(nodes, spots)
    ensures |out| == |c.names| && forall i :: 0 <= i < |out| ==> (c.names[i] in nodes <==> !out[i])
  {
    PositiveSpots(c, nodes, spots);
  }

  lemma {:induction false} PresentLists(c: Config, out: seq<bool>)
    requires ValidConfig(c) && |out| == |c.names|
    ensures var (nodes, spots) := Present(c, out, |c.names|); Lists(c, nodes, spots, out)
  {
    PresentList(c, out, |c.names|);
  }

  lemma {:induction false} ListsOwn(digest: Digest, c: Config, a: seq<string>, aSpots: seq<int>, b: seq<string>,
      bSpots: seq<int>, out: seq<bool>, h: nat, n: string)
    requires ValidConfig(c) && Lists(c, a, aSpots, out) && Lists(c, b, bSpots, out)
    requires Weighted(a, aSpots) && Weighted(b, bSpots)
    ensures Owns(digest, a, aSpots, h, n) ==> Owns(digest, b, bSpots, h, n)
  {
    hide OnRing, Lists, Owns, Weighted;
    forall t
      ensures OnRing(digest, a, aSpots, t) <==> OnRing(digest, b, bSpots, t)
    {
      if OnRing(digest, a, aSpots, t) {
        SameTicks(digest, c, a, aSpots, b, bSpots, out, t);
      }
      if OnRing(digest, b, bSpots, t) {
        SameTicks(digest, c, b, bSpots, a, aSpots, out, t);
      }
    }
    SameOwner(digest, a, aSpots, b, bSpots, h, n);
  }

  /**
   History independence. After any interleaving of pings a server is off the ring exactly
   when its last pings failed at least the limit in a row, and every value is owned as on a
   ring freshly initialised with the servers that are left.
   */
  lemma {:induction false} HistoryIndependence(digest: Digest, c: Config, run: seq<Ping>, h: nat, a: string)
    requires ValidConfig(c) && Pings(c, run)
    ensures
      var s := State(c, run);
      var (nodes, spots) := Present(c, Outs(s), |c.names|);
      && Weighted(s.nodes, s.spots) && Weighted(nodes, spots)
      && (forall i :: 0 <= i < |c.names| ==> (c.names[i] in s.nodes <==> !Ejected(c, run, i)))
      && (forall i :: 0 <= i < |c.names| ==> (c.names[i] in nodes <==> !Ejected(c, run, i)))
      && (Owns(digest, s.nodes, s.spots, h, a) <==> Owns(digest, nodes, spots, h, a))
  {
    hide Lists, Owns, Weighted, Present, State, Ejected;
    var s := State(c, run);
    var out := Outs(s);
    var (nodes, spots) := Present(c, out, |c.names|);
    PingersTrack(c, run);
    RunKeepsLists(c, run);
    PresentLists(c, out);
    ListsFacts(c, s.nodes, s.spots, out);
    ListsFacts(c, nodes, spots, out);
    ListsOwn(digest, c, s.nodes, s.spots, nodes, spots, out, h, a);
    ListsOwn(digest, c, nodes, spots, s.nodes, s.spots, out, h, a);
  }

  /**
   The same for what `GetNode` returns, as long as the fresh ring has no two nodes in one
   place: after any interleaving of pings a lookup gives what it gives on a fresh ring of the
   servers that are left.
   */
  lemma {:induction false} SameRoute(digest: Digest, c: Config, run: seq<Ping>, ticks: seq<Tick>, anew: seq<Tick>,
      h: nat)
    requires ValidConfig(c) && Pings(c, run)
    requires var s := State(c, run); Built(digest, s.nodes, s.spots, ticks)
    requires var (nodes, spots) := Present(c, Outs(State(c, run)), |c.names|); Built(digest, nodes, spots, anew)
    requires Apart(anew)
    ensures ticks == [] <==> anew == []
    ensures ticks != [] ==> ticks[Scan(ticks, h)].node == anew[Scan(anew, h)].node
  {
    hide Apart, Present, State, Scan, Ejected, Owns;
    var s := State(c, run);
    var (nodes, spots) := Present(c, Outs(s), |c.names|);
    if ticks != [] {
      var a := ticks[Scan(ticks, h)].node;
      ScanFindsOwner(digest, s.nodes, s.spots, ticks, h);
      HistoryIndependence(digest, c, run, h, a);
      OwnerIsFound(digest, nodes, spots, anew, h, a);
    } else if anew != [] {
      var a := anew[Scan(anew, h)].node;
      ScanFindsOwner(digest, nodes, spots, anew, h);
      HistoryIndependence(digest, c, run, h, a);
      OwnedIsNotEmpty(digest, s.nodes, s.spots, ticks, h, a);
    }
  }

  lemma {:induction false} OwnedIsNotEmpty(digest: Digest, nodes: seq<string>, spots: seq<int>, ticks: seq<Tick>,
      h: nat, a: string)
    requires Built(digest, nodes, spots, ticks) && Owns(digest, nodes, spots, h, a)
    ensures ticks != []
  {
    hide OnRing;
    var t :| Takes(digest, nodes, spots, h, t) && t.node == a;
    assert t in ticks;
  }

  lemma {:induction false} SameOwner(digest: Digest, a: seq<string>, aSpots: seq<int>, b: seq<string>, bSpots: seq<int>,
      h: nat, n: string)
    requires Weighted(a, aSpots) && Weighted(b, bSpots)
    requires forall t :: OnRing(digest, a, aSpots, t) <==> OnRing(digest, b, bSpots, t)
    ensures Owns(digest, a, aSpots, h, n) ==> Owns(digest, b, bSpots, h, n)
  {
    hide OnRing;
    if Owns(digest, a, aSpots, h, n) {
      var t :| Takes(digest, a, aSpots, h, t) && t.node == n;
      assert Takes(digest, b, bSpots, h, t);
    }
  }
}
