/**
 The ketama ring of pkg/hashkit/ketama.go. Hashes are parameters: `digest` gives the four ticks
 of a virtual host's name, `hash` the value of a key. Floats are reals.
 */
module Ketama {
  import opened Common
  import Decimal

  datatype Tick = Tick(node: string, hash: nat)

  /** The value of quarter `x` of the digest of a name. */
  type Digest = (string, nat) -> nat

  const POINTER_PER_HASH := 4
  const MAX_HOST_LEN := 64

  /** The name of virtual host `p` of a node, cut to its maximal length. */
  function HostName(node: string, p: nat): (host: string)
    ensures |host| <= MAX_HOST_LEN
  {
    var host := node + "-" + Decimal.Itoa(p);
    if |host| > MAX_HOST_LEN then host[..MAX_HOST_LEN] else host
  }

  /** Short names of virtual hosts are all different. */
  lemma {:induction false} HostNamesApart(a: string, p: nat, b: string, q: nat)
    requires |a| + 1 + |Decimal.Itoa(p)| <= 64 && |b| + 1 + |Decimal.Itoa(q)| <= 64
    requires HostName(a, p) == HostName(b, q)
    ensures a == b && p == q
  {
    hide Decimal.Itoa;
    var dp, dq := Decimal.Itoa(p), Decimal.Itoa(q);
    var host := a + "-" + dp;
    assert host == b + "-" + dq;
    Decimal.ItoaDigits(p);
    Decimal.ItoaDigits(q);
    assert host[|a|] == '-' && host[|b|] == '-';
    assert a == host[..|a|] && b == host[..|b|];
    assert dp == host[|a| + 1..] && dq == host[|b| + 1..];
    Decimal.ItoaInjective(p, q);
  }

  /** The tick number `x` of virtual host `p` of a node. */
  function Point(digest: Digest, node: string, p: nat, x: nat): nat { digest(HostName(node, p), x) }

  // ---------------------------------------------------------------- specification

  /** Virtual hosts of a node with weight `w` among `n` nodes weighing `total`. */
  function Rounds(n: nat, w: int, total: int): nat
    requires w > 0 && total > 0
  {
    var pct := (w as real) / (total as real);
    var perServer := ((pct * 160.0 / 4.0 * (n as real) + 0.0000000001) * 4.0).Floor;
    (if perServer >= 0 then perServer else 0) / POINTER_PER_HASH
  }

  /** A node's share of the forty virtual hosts per node. */
  function Share(n: nat, w: int, total: int): real
    requires total > 0
  {
    (40 * n * w) as real / total as real
  }

  lemma {:induction false} ShareIs(n: nat, w: int, total: int)
    requires w > 0 && total > 0
    ensures (w as real) / (total as real) * 160.0 / 4.0 * (n as real) == Share(n, w, total) >= 0.0
  {
    var x, t, m := w as real, total as real, n as real;
    assert (40 * n * w) as real == 40.0 * m * x;
    assert x / t * 160.0 / 4.0 * m == x / t * (40.0 * m);
    assert x / t * (40.0 * m) == x * (40.0 * m) / t;
  }

  lemma {:induction false} QuarterFloor(y: real)
    requires y >= 0.0
    ensures ((y * 4.0).Floor / 4) as real <= y < ((y * 4.0).Floor / 4) as real + 1.0
  {
    var f := (y * 4.0).Floor;
    var k := f / 4;
    assert 4 * k <= f <= 4 * k + 3;
    assert f as real <= y * 4.0 < f as real + 1.0;
    assert (4 * k) as real <= f as real && (f + 1) as real <= (4 * k + 4) as real;
  }

  /** A node has its share by weight, rounded down; a share just short of a whole is made whole. */
  lemma {:induction false} RoundsByWeight(n: nat, w: int, total: int)
    requires w > 0 && total > 0
    ensures Rounds(n, w, total) as real <= Share(n, w, total) + 0.0000000001 < Rounds(n, w, total) as real + 1.0
  {
    ShareIs(n, w, total);
    QuarterFloor(Share(n, w, total) + 0.0000000001);
  }

  lemma {:induction false} FloorOfShare(a: nat, t: nat, k: nat)
    requires t > 0 && k as real <= a as real / t as real + 0.0000000001 < k as real + 1.0
    ensures k == a / t + if t < (t - a % t) * 10_000_000_000 then 0 else 1
  {
    var q, r := a / t, a % t;
    DivideOut(a, t);
    RestBelowOne(r, t);
    var rest := r as real / t as real;
    assert 0.0 <= rest < 1.0;
    var up := if t < (t - r) * 10_000_000_000 then 0 else 1;
    assert (q + up) as real < k as real + 1.0 && k as real < (q + up) as real + 1.0;
  }

  lemma {:induction false} DivideOut(a: nat, t: nat)
    requires t > 0
    ensures a as real / t as real == (a / t) as real + (a % t) as real / t as real
  {
    var q, r, x := (a / t) as real, (a % t) as real, t as real;
    assert a == a / t * t + a % t;
    assert a as real == q * x + r;
    assert (q * x + r) / x == q + r / x;
  }

  lemma {:induction false} RestBelowOne(r: nat, t: nat)
    requires r < t
    ensures 0.0 <= r as real / t as real < 1.0
    ensures r as real / t as real + 0.0000000001 < 1.0 <==> t < (t - r) * 10_000_000_000
  {
    RestOfReal(r as real, t as real);
    assert t as real - r as real == (t - r) as real;
    assert (t - r) as real * 10000000000.0 == ((t - r) * 10_000_000_000) as real;
  }

  lemma {:induction false} RestOfReal(r: real, x: real)
    requires 0.0 <= r < x
    ensures 0.0 <= r / x < 1.0
    ensures r / x + 0.0000000001 < 1.0 <==> x < (x - r) * 10000000000.0
  {
    var d := r / x;
    Scaled(1.0, d, x, x, r);
    Scaled(1.0 - 0.0000000001, d, x, x - 0.0000000001 * x, r);
    if d < 0.0 {
      Scaled(0.0, d, x, 0.0, r);
    }
  }

  lemma Scaled(a: real, b: real, x: real, ax: real, bx: real)
    requires x > 0.0 && ax == a * x && bx == b * x
    ensures a > b <==> ax > bx
  {
  }

  /**
   In whole numbers: forty virtual hosts per node are dealt out by weight, rounded down, unless
   the share is less than one part in ten thousand millions short of the next whole.
   */
  lemma {:induction false} RoundsExactly(n: nat, w: int, total: int)
    requires 0 < w && 0 < total
    ensures
      var share := 40 * n * w;
      Rounds(n, w, total) == share / total + if total < (total - share % total) * 10_000_000_000 then 0 else 1
    ensures 40 * n * w % total == 0 || total < 10_000_000_000 ==> Rounds(n, w, total) == 40 * n * w / total
  {
    hide Rounds;
    RoundsByWeight(n, w, total);
    FloorOfShare(40 * n * w, total, Rounds(n, w, total));
  }

  /** More weight is never fewer virtual hosts. */
  lemma {:induction false} RoundsMonotone(n: nat, v: int, w: int, total: int)
    requires 0 < v <= w && 0 < total
    ensures Rounds(n, v, total) <= Rounds(n, w, total)
  {
    hide Rounds;
    RoundsByWeight(n, v, total);
    RoundsByWeight(n, w, total);
    assert (40 * n * v) as real <= (40 * n * w) as real by {
      assert 40 * n * (w - v) >= 0;
    }
    assert Share(n, v, total) <= Share(n, w, total) by {
      ShareMonotone((40 * n * v) as real, (40 * n * w) as real, total as real);
    }
  }

  lemma ShareMonotone(a: real, b: real, t: real)
    requires a <= b && t > 0.0
    ensures a / t <= b / t
  {
  }

  /** Of two nodes that weigh 1 and 3, one has 20 virtual hosts and the other 60. */
  lemma {:induction false} OneToThree()
    ensures Rounds(2, 1, 4) == 20 && Rounds(2, 3, 4) == 60
  {
    RoundsExactly(2, 1, 4);
    RoundsExactly(2, 3, 4);
  }

  ghost predicate Positive(spots: seq<int>) { forall i :: 0 <= i < |spots| ==> spots[i] > 0 }

  lemma {:induction false} TotalPositive(spots: seq<int>)
    requires Positive(spots)
    ensures Sum(spots) >= 0 && (spots != [] ==> Sum(spots) > 0)
  {
    if spots != [] {
      TotalPositive(spots[..|spots| - 1]);
    }
  }

  /** The ticks of one node. */
  ghost function NodeTicks(digest: Digest, node: string, rounds: nat): set<Tick> {
    set p, x | 0 <= p < rounds && 0 <= x < POINTER_PER_HASH :: Tick(node, Point(digest, node, p, x))
  }

  ghost predicate Weighted(nodes: seq<string>, spots: seq<int>) { |nodes| == |spots| && Positive(spots) }

  ghost function RoundsAt(nodes: seq<string>, spots: seq<int>, i: nat): nat
    requires Weighted(nodes, spots) && i < |nodes|
  {
    TotalPositive(spots);
    Rounds(|nodes|, spots[i], Sum(spots))
  }

  /** Whether a tick belongs to the ring of these nodes and weights. */
  ghost predicate OnRing(digest: Digest, nodes: seq<string>, spots: seq<int>, t: Tick)
    requires Weighted(nodes, spots)
  {
    exists i :: 0 <= i < |nodes| && t in NodeTicks(digest, nodes[i], RoundsAt(nodes, spots, i))
  }

  ghost predicate Sorted(ticks: seq<Tick>) {
    forall i, j :: 0 <= i < j < |ticks| ==> ticks[i].hash <= ticks[j].hash
  }

  /** The sorted ticks hold exactly what the nodes and weights call for. */
  ghost predicate Built(digest: Digest, nodes: seq<string>, spots: seq<int>, ticks: seq<Tick>) {
    && Weighted(nodes, spots) && Sorted(ticks)
    && forall t :: t in ticks <==> OnRing(digest, nodes, spots, t)
  }

  /** Each virtual host of a node gives it four ticks, one for each quarter of the digest of its name. */
  lemma {:induction false} FourTicks(digest: Digest, nodes: seq<string>, spots: seq<int>, ticks: seq<Tick>,
      i: nat, p: nat, x: nat)
    requires Built(digest, nodes, spots, ticks) && i < |nodes| && p < RoundsAt(nodes, spots, i) && x < 4
    ensures Tick(nodes[i], digest(HostName(nodes[i], p), x)) in ticks
  {
    hide RoundsAt, HostName;
    var t := Tick(nodes[i], digest(HostName(nodes[i], p), x));
    assert t == Tick(nodes[i], Point(digest, nodes[i], p, x));
    assert t in NodeTicks(digest, nodes[i], RoundsAt(nodes, spots, i));
    assert OnRing(digest, nodes, spots, t);
  }

  /** The first tick at or after `h`, or the first one of all. */
  function Scan(ticks: seq<Tick>, h: nat): (i: nat)
    requires ticks != []
    ensures i < |ticks|
  {
    ScanFrom(ticks, h, 0)
  }

  function ScanFrom(ticks: seq<Tick>, h: nat, from: nat): (i: nat)
    requires ticks != [] && from <= |ticks|
    ensures i < |ticks|
    decreases |ticks| - from
  {
    if from == |ticks| then 0
    else if ticks[from].hash >= h then from
    else ScanFrom(ticks, h, from + 1)
  }

  lemma {:induction false} ScanFinds(ticks: seq<Tick>, h: nat, from: nat, k: nat)
    requires ticks != [] && from <= k <= |ticks|
    requires forall i :: from <= i < k ==> ticks[i].hash < h
    requires k < |ticks| ==> ticks[k].hash >= h
    ensures ScanFrom(ticks, h, from) == if k < |ticks| then k else 0
    decreases k - from
  {
    if from < k {
      ScanFinds(ticks, h, from + 1, k);
    }
  }

  // ---------------------------------------------------------------- the ring

  class HashRing {
    const digest: Digest
    const hash: string -> nat
    var nodes: seq<string>
    var spots: seq<int>
    var ticks: seq<Tick>

    ghost predicate Valid()
      reads this
    {
      Built(digest, nodes, spots, ticks)
    }

    constructor (digest: Digest, hash: string -> nat)
      ensures Valid() && nodes == [] && this.digest == digest && this.hash == hash
    {
      this.digest, this.hash := digest, hash;
      nodes, spots, ticks := [], [], [];
    }

    /** `init`; the original panics on lists of different length. */
    method Init(nodes: seq<string>, spots: seq<int>)
      requires Weighted(nodes, spots)
      modifies this
      ensures Valid() && this.nodes == nodes && this.spots == spots
    {
      this.nodes, this.spots := nodes, spots;
      var total := 0;
      for k := 0 to |spots|
        invariant total == Sum(spots[..k])
        modifies {}
      {
        assert spots[..k + 1][..k] == spots[..k];
        total := total + spots[k];
      }
      assert spots[..|spots|] == spots;
      TotalPositive(spots);
      var all: seq<Tick> := [];
      for idx := 0 to |nodes|
        invariant forall t :: t in all <==>
          exists i :: 0 <= i < idx && t in NodeTicks(digest, nodes[i], RoundsAt(nodes, spots, i))
        modifies {}
      {
        var mine := TicksOf(nodes[idx], Rounds(|nodes|, spots[idx], total));
        all := all + mine;
      }
      ticks := SortTicks(all);
    }

    method TicksOf(node: string, rounds: nat) returns (mine: seq<Tick>)
      ensures forall t :: t in mine <==> t in NodeTicks(digest, node, rounds)
    {
      hide HostName;
      mine := [];
      for p := 0 to rounds
        invariant forall t :: t in mine <==> t in NodeTicks(digest, node, p)
      {
        ghost var before := mine;
        var host := HostName(node, p);
        for x := 0 to POINTER_PER_HASH
          invariant forall t :: t in mine <==>
            t in before || exists y :: 0 <= y < x && t == Tick(node, Point(digest, node, p, y))
        {
          assert Point(digest, node, p, x) == digest(host, x);
          mine := mine + [Tick(node, digest(host, x))];
        }
        assert forall t :: t in mine <==>
          t in before || t in set y | 0 <= y < POINTER_PER_HASH :: Tick(node, Point(digest, node, p, y));
        assert NodeTicks(digest, node, p + 1)
            == NodeTicks(digest, node, p) + set y | 0 <= y < POINTER_PER_HASH :: Tick(node, Point(digest, node, p, y));
      }
    }

    method AddNode(node: string, spot: int)
      requires Valid() && spot > 0
      modifies this
      ensures Valid() && (nodes, spots) == Added(old(nodes), old(spots), node, spot)
    {
      var tmpNode: seq<string>, tmpSpot: seq<int>, known := [], [], false;
      for i := 0 to |nodes|
        invariant tmpNode == nodes[..i] && tmpSpot == Updated(nodes[..i], spots[..i], node, spot)
        invariant known <==> node in nodes[..i]
        invariant Positive(tmpSpot)
        modifies {}
      {
        var nd := nodes[i];
        assert nodes[..i + 1] == nodes[..i] + [nd] && spots[..i + 1] == spots[..i] + [spots[i]];
        UpdatedSnoc(nodes[..i], spots[..i], nd, spots[i], node, spot);
        tmpNode := tmpNode + [nd];
        if nd == node {
          known := true;
          tmpSpot := tmpSpot + [spot];
        } else {
          tmpSpot := tmpSpot + [spots[i]];
        }
      }
      assert nodes[..|nodes|] == nodes && spots[..|spots|] == spots;
      if !known {
        assert Updated(nodes, spots, node, spot) == spots;
        tmpNode := tmpNode + [node];
        tmpSpot := tmpSpot + [spot];
      }
      Init(tmpNode, tmpSpot);
    }

    method DelNode(n: string)
      requires Valid()
      modifies this
      ensures Valid() && (nodes, spots) == Deleted(old(nodes), old(spots), n)
    {
      var tmpNode: seq<string>, tmpSpot: seq<int>, del := [], [], false;
      for i := 0 to |nodes|
        invariant (tmpNode, tmpSpot) == Deleted(nodes[..i], spots[..i], n)
        invariant |tmpNode| == |tmpSpot| && Positive(tmpSpot)
        invariant del <==> n in nodes[..i]
        modifies {}
      {
        assert nodes[..i + 1] == nodes[..i] + [nodes[i]] && spots[..i + 1] == spots[..i] + [spots[i]];
        DeletedSnoc(nodes[..i], spots[..i], nodes[i], spots[i], n);
        if nodes[i] != n {
          tmpNode := tmpNode + [nodes[i]];
          tmpSpot := tmpSpot + [spots[i]];
        } else {
          del := true;
        }
      }
      assert nodes[..|nodes|] == nodes && spots[..|spots|] == spots;
      if del {
        Init(tmpNode, tmpSpot);
      } else {
        DeletedAbsent(nodes, spots, n);
      }
    }

    /** `sort.Search`, then the wrap to the first tick: the same as the plain scan. */
    method GetNode(key: string) returns (r: Option<string>)
      requires Valid()
      ensures r.None? <==> ticks == []
      ensures r.Some? ==> r.value == ticks[Scan(ticks, hash(key))].node
    {
      if ticks == [] {
        return None;
      }
      var value := hash(key);
      var i, j := 0, |ticks|;
      while i < j
        invariant 0 <= i <= j <= |ticks|
        invariant forall k :: 0 <= k < i ==> ticks[k].hash < value
        invariant forall k :: j <= k < |ticks| ==> ticks[k].hash >= value
      {
        var h := (i + j) / 2;
        if ticks[h].hash < value {
          i := h + 1;
        } else {
          j := h;
        }
      }
      ScanFinds(ticks, value, 0, i);
      if i == |ticks| {
        i := 0;
      }
      return Some(ticks[i].node);
    }
  }

  /** `sort.Sort` by hash; nothing depends on how equal hashes fall. */
  method SortTicks(all: seq<Tick>) returns (sorted: seq<Tick>)
    ensures Sorted(sorted) && |sorted| == |all|
    ensures forall t :: t in sorted <==> t in all
  {
    sorted := [];
    for k := 0 to |all|
      invariant |sorted| == k && Sorted(sorted)
      invariant forall t :: t in sorted <==> t in all[..k]
    {
      var p := 0;
      while p < |sorted| && sorted[p].hash <= all[k].hash
        invariant 0 <= p <= |sorted|
        invariant forall i :: 0 <= i < p ==> sorted[i].hash <= all[k].hash
      {
        p := p + 1;
      }
      sorted := Inserted(sorted, p, all[k]);
      assert all[..k + 1] == all[..k] + [all[k]];
    }
    assert all[..|all|] == all;
  }

  // ---------------------------------------------------------------- node lists

  function Updated(nodes: seq<string>, spots: seq<int>, node: string, spot: int): (r: seq<int>)
    requires |nodes| == |spots|
    ensures |r| == |spots| && forall i :: 0 <= i < |r| ==> r[i] == if nodes[i] == node then spot else spots[i]
  {
    seq(|spots|, i requires 0 <= i < |spots| => if nodes[i] == node then spot else spots[i])
  }

  function Added(nodes: seq<string>, spots: seq<int>, node: string, spot: int): (seq<string>, seq<int>)
    requires |nodes| == |spots|
  {
    if node in nodes then (nodes, Updated(nodes, spots, node, spot))
    else (nodes + [node], spots + [spot])
  }

  function Deleted(nodes: seq<string>, spots: seq<int>, n: string): (r: (seq<string>, seq<int>))
    requires |nodes| == |spots|
    ensures |r.0| == |r.1|
  {
    if nodes == [] then ([], [])
    else
      var k := |nodes| - 1;
      var (ns, ss) := Deleted(nodes[..k], spots[..k], n);
      if nodes[k] == n then (ns, ss) else (ns + [nodes[k]], ss + [spots[k]])
  }

  lemma UpdatedSnoc(nodes: seq<string>, spots: seq<int>, nd: string, sp: int, node: string, spot: int)
    requires |nodes| == |spots|
    ensures Updated(nodes + [nd], spots + [sp], node, spot)
         == Updated(nodes, spots, node, spot) + [if nd == node then spot else sp]
  {
  }

  lemma {:induction false} DeletedSnoc(nodes: seq<string>, spots: seq<int>, nd: string, sp: int, n: string)
    requires |nodes| == |spots|
    ensures
      var (ns, ss) := Deleted(nodes, spots, n);
      Deleted(nodes + [nd], spots + [sp], n) == if nd == n then (ns, ss) else (ns + [nd], ss + [sp])
  {
    assert (nodes + [nd])[..|nodes|] == nodes && (spots + [sp])[..|spots|] == spots;
  }

  lemma {:induction false} DeletedAbsent(nodes: seq<string>, spots: seq<int>, n: string)
    requires |nodes| == |spots| && n !in nodes
    ensures Deleted(nodes, spots, n) == (nodes, spots)
  {
    if nodes != [] {
      var k := |nodes| - 1;
      DeletedAbsent(nodes[..k], spots[..k], n);
      assert nodes == nodes[..k] + [nodes[k]] && spots == spots[..k] + [spots[k]];
    }
  }
}
