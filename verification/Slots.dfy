/**
 Dividing the 16384 slots: `divide` of enri/util.go and `divideSlots` of
 platform/job/create/server_cluster.go.
 */
module Slots {
  import opened Common

  const SLOTS := 16384

  // ---------------------------------------------------------------- divide

  /** `n` in `m` parts, the larger first and none over one larger than another. */
  ghost predicate Level(parts: seq<int>, n: int, m: int) {
    && |parts| == m && Sum(parts) == n
    && forall i, j :: 0 <= i < j < |parts| ==> parts[j] <= parts[i] <= parts[j] + 1
  }

  /** Quotient towards zero. */
  function Quotient(n: int, m: int): int
    requires m > 0
  {
    if n >= 0 then n / m else -(-n / m)
  }

  lemma {:induction false} QuotientBounds(n: int, m: int)
    requires m > 0
    ensures n >= 0 ==> Quotient(n, m) >= 0 && 0 <= n - Quotient(n, m) * m < m
    ensures n < 0 ==> Quotient(n, m) <= 0 && n - Quotient(n, m) * m <= 0
  {
    var k := if n >= 0 then n else -n;
    var q := k / m;
    NaturalQuotient(k, m);
    assert Quotient(n, m) == if n >= 0 then q else -q;
    assert -q * m == -(q * m);
  }

  lemma {:induction false} NaturalQuotient(k: nat, m: int)
    requires m > 0
    ensures k / m >= 0 && 0 <= k - (k / m) * m < m
  {
    assert k == m * (k / m) + k % m;
  }

  method Divide(n: int, m: int) returns (parts: seq<int>)
    requires m > 0
    ensures |parts| == m
    ensures n >= 0 ==> Level(parts, n, m)
    ensures n < 0 ==> forall i :: 0 <= i < m ==> parts[i] <= 0
  {
    var avg := Quotient(n, m);
    var remain := n - avg * m;
    QuotientBounds(n, m);
    hide Quotient;
    parts := [];
    for i := 0 to m
      invariant |parts| == i
      invariant forall k :: 0 <= k < i ==> parts[k] == if k < remain then avg + 1 else avg
      invariant remain >= 0 ==> Sum(parts) == i * avg + (if i < remain then i else remain)
    {
      var part := if i < remain then avg + 1 else avg;
      SumSnoc(parts, part);
      assert (i + 1) * avg == i * avg + avg;
      parts := parts + [part];
    }
    assert n >= 0 ==> Sum(parts) == n;
  }

  lemma {:induction false} SumOrder(a: seq<int>, b: seq<int>)
    requires |a| == |b| && forall i :: 0 <= i < |a| ==> a[i] <= b[i]
    ensures Sum(a) <= Sum(b)
    ensures Sum(a) == Sum(b) ==> a == b
  {
    if a != [] {
      var k := |a| - 1;
      var c, d := a[..k], b[..k];
      assert a == c + [a[k]] && b == d + [b[k]];
      SumOrder(c, d);
      assert Sum(a) == Sum(c) + a[k] && Sum(b) == Sum(d) + b[k];
      hide Sum;
    }
  }

  lemma {:induction false} LevelBelow(a: seq<int>, b: seq<int>, n: int, m: int, i: nat)
    requires Level(a, n, m) && Level(b, n, m) && i < m && a[i] < b[i]
    ensures forall k :: 0 <= k < m ==> a[k] <= b[k]
  {
    forall k | 0 <= k < m
      ensures a[k] <= b[k]
    {
      if k < i {
        assert a[k] <= a[i] + 1 && b[i] <= b[k];
      } else if k > i {
        assert a[k] <= a[i] && b[i] <= b[k] + 1;
      }
    }
  }

  /** There is one level division. */
  lemma {:induction false} LevelUnique(a: seq<int>, b: seq<int>, n: int, m: int)
    requires Level(a, n, m) && Level(b, n, m)
    ensures a == b
  {
    if i :| 0 <= i < m && a[i] < b[i] {
      LevelBelow(a, b, n, m, i);
      SumOrder(a, b);
    } else {
      SumOrder(b, a);
    }
  }

  lemma {:induction false} LevelNonNegative(parts: seq<int>, n: int, m: int)
    requires Level(parts, n, m) && n >= 0
    ensures forall i :: 0 <= i < m ==> parts[i] >= 0
  {
    if i :| 0 <= i < m && parts[i] < 0 {
      var zeros := seq(m, _ => 0);
      ZeroSum(zeros);
      forall k | 0 <= k < m
        ensures parts[k] <= zeros[k]
      {
      }
      SumOrder(parts, zeros);
    }
  }

  lemma {:induction false} ZeroSum(zeros: seq<int>)
    requires forall i :: 0 <= i < |zeros| ==> zeros[i] == 0
    ensures Sum(zeros) == 0
  {
    if zeros != [] {
      ZeroSum(zeros[..|zeros| - 1]);
    }
  }

  // ---------------------------------------------------------------- divideSlots

  /** The masters among the first `k` nodes. */
  function Rank(nodes: seq<Node>, k: nat): nat
    requires k <= |nodes|
  {
    if k == 0 then 0 else Rank(nodes, k - 1) + if nodes[k - 1].role == Master then 1 else 0
  }

  function Per(number: int): int
    requires number > 0
  {
    SLOTS / number
  }

  function Left(number: int): int
    requires number > 0
  {
    SLOTS % number
  }

  lemma PerLeft(number: int)
    requires number > 0
    ensures Per(number) >= 0 && 0 <= Left(number) < number && Per(number) * number + Left(number) == SLOTS
  {
  }

  /** Where the range of the `c`-th master begins. */
  function Bound(number: int, c: nat): int
    requires number > 0
  {
    var b := c * (Per(number) + 1) + if c < Left(number) then c else Left(number);
    if b < SLOTS then b else SLOTS
  }

  function RangeAt(number: int, c: nat): Range
    requires number > 0
  {
    Range(Bound(number, c), Bound(number, c + 1) - 1)
  }

  /** Every master has the range of its rank, slaves have none. */
  ghost predicate Dealt(nodes: seq<Node>, number: int)
    requires number > 0
  {
    forall i :: 0 <= i < |nodes| ==>
      nodes[i].slots == if nodes[i].role == Slave then [] else [RangeAt(number, Rank(nodes, i))]
  }

  lemma {:induction false} BoundStep(number: int, c: nat)
    requires number > 0
    ensures
      var end := Bound(number, c) + Per(number) + if c < Left(number) then 1 else 0;
      Bound(number, c + 1) == if end >= SLOTS then SLOTS else end + 1
  {
    PerLeft(number);
    hide Per, Left;
    var p := Per(number);
    assert (c + 1) * (p + 1) == c * (p + 1) + p + 1;
  }

  lemma {:induction false} RankSnoc(nodes: seq<Node>, n: Node, k: nat)
    requires k <= |nodes|
    ensures Rank(nodes + [n], k) == Rank(nodes, k)
  {
    if k > 0 {
      RankSnoc(nodes, n, k - 1);
    }
  }

  lemma {:induction false} DealtSnoc(nodes: seq<Node>, n: Node, number: int)
    requires number > 0 && Dealt(nodes, number)
    requires n.slots == if n.role == Slave then [] else [RangeAt(number, Rank(nodes, |nodes|))]
    ensures Dealt(nodes + [n], number)
    ensures Rank(nodes + [n], |nodes| + 1) == Rank(nodes, |nodes|) + if n.role == Master then 1 else 0
  {
    hide RangeAt;
    forall i | 0 <= i <= |nodes|
      ensures Rank(nodes + [n], i) == Rank(nodes, i)
    {
      RankSnoc(nodes, n, i);
    }
  }

  ghost predicate SameNode(n: Node, from: Node) { n == from.(slots := n.slots) }

  ghost predicate SameButSlots(c: Chunk, from: Chunk) {
    |c.nodes| == |from.nodes| && forall x :: 0 <= x < |c.nodes| ==> SameNode(c.nodes[x], from.nodes[x])
  }

  /** The range of the next master. */
  method NextRange(number: int, per: int, left: int, base: int, cursor: nat) returns (r: Range)
    requires number > 0 && per == Per(number) && left == Left(number) && base == Bound(number, cursor)
    ensures r == RangeAt(number, cursor)
  {
    BoundStep(number, cursor);
    hide Per, Left, Bound;
    var sc := per;
    if cursor < left {
      sc := sc + 1;
    }
    var end := base + sc;
    if end >= SLOTS {
      end := SLOTS - 1;
    }
    r := Range(base, end);
  }

  /** Where the loops stand after `nodes`. */
  ghost predicate Stage(nodes: seq<Node>, number: int, base: int, cursor: nat)
    requires number > 0
  {
    Dealt(nodes, number) && cursor == Rank(nodes, |nodes|) && base == Bound(number, cursor)
  }

  lemma {:induction false} StageSnoc(nodes: seq<Node>, n: Node, number: int, base: int, cursor: nat)
    requires number > 0 && Stage(nodes, number, base, cursor)
    requires n.slots == if n.role == Slave then [] else [RangeAt(number, cursor)]
    ensures
      if n.role == Slave then Stage(nodes + [n], number, base, cursor)
      else Stage(nodes + [n], number, RangeAt(number, cursor).end + 1, cursor + 1)
  {
    hide Dealt, Bound, Rank;
    DealtSnoc(nodes, n, number);
  }

  lemma {:induction false} StageStart(number: int)
    requires number > 0
    ensures Stage([], number, 0, 0)
  {
    PerLeft(number);
    hide Per, Left;
  }

  /** One node, after the nodes `before`. */
  method DivideNode(node: Node, number: int, per: int, left: int, base: int, cursor: nat, ghost before: seq<Node>)
    returns (n: Node, nextBase: int, nextCursor: nat)
    requires number > 0 && per == Per(number) && left == Left(number) && Stage(before, number, base, cursor)
    ensures SameNode(n, node) && Stage(before + [n], number, nextBase, nextCursor)
  {
    hide Per, Left, Bound, Rank, Dealt;
    if node.role == Slave {
      n, nextBase, nextCursor := node.(slots := []), base, cursor;
    } else {
      var range := NextRange(number, per, left, base, cursor);
      n, nextBase, nextCursor := node.(slots := [range]), range.end + 1, cursor + 1;
    }
    StageSnoc(before, n, number, base, cursor);
  }

  /** The inner loop, over one chunk, after the nodes `before`. */
  method DivideChunk(c: Chunk, number: int, per: int, left: int, base: int, cursor: nat, ghost before: seq<Node>)
    returns (r: Chunk, nextBase: int, nextCursor: nat)
    requires number > 0 && per == Per(number) && left == Left(number) && Stage(before, number, base, cursor)
    ensures SameButSlots(r, c) && Stage(before + r.nodes, number, nextBase, nextCursor)
  {
    hide Per, Left, Stage, SameNode;
    var nodes: seq<Node> := [];
    nextBase, nextCursor := base, cursor;
    assert before + nodes == before;
    for x := 0 to |c.nodes|
      invariant |nodes| == x && forall y :: 0 <= y < x ==> SameNode(nodes[y], c.nodes[y])
      invariant Stage(before + nodes, number, nextBase, nextCursor)
    {
      var n;
      n, nextBase, nextCursor := DivideNode(c.nodes[x], number, per, left, nextBase, nextCursor, before + nodes);
      assert before + (nodes + [n]) == before + nodes + [n];
      nodes := nodes + [n];
    }
    r := Chunk(nodes);
  }

  method DivideSlots(plan: array<Chunk>, number: int)
    requires number > 0
    modifies plan
    ensures Dealt(NodesOf(plan[..]), number)
    ensures forall k :: 0 <= k < plan.Length ==> SameButSlots(plan[k], old(plan[k]))
  {
    var per := SLOTS / number;
    var left := SLOTS % number;
    assert per == Per(number) && left == Left(number);
    hide Per, Left, SameButSlots, Rank, Dealt, Bound;
    var base, cursor := 0, 0;
    StageStart(number);
    for k := 0 to plan.Length
      invariant Stage(NodesOf(plan[..k]), number, base, cursor)
      invariant forall j :: 0 <= j < k ==> SameButSlots(plan[j], old(plan[j]))
      invariant forall j :: k <= j < plan.Length ==> plan[j] == old(plan[j])
    {
      ghost var before := plan[..k];
      var c;
      c, base, cursor := DivideChunk(plan[k], number, per, left, base, cursor, NodesOf(before));
      plan[k] := c;
      assert plan[..k] == before && plan[..k + 1] == before + [c];
      assert (before + [c])[..k] == before;
    }
    assert plan[..plan.Length] == plan[..];
  }

  predicate InRange(r: Range, slot: int) { r.begin <= slot <= r.end }

  lemma {:induction false} BoundsRise(number: int, c: nat, d: nat)
    requires number > 0 && c <= d
    ensures 0 <= Bound(number, c) <= Bound(number, d) <= SLOTS
    decreases d
  {
    PerLeft(number);
    hide Per, Left;
    if c < d {
      BoundsRise(number, c, d - 1);
      BoundStep(number, d - 1);
    } else {
      BoundNonNegative(number, c);
    }
  }

  lemma {:induction false} BoundNonNegative(number: int, c: nat)
    requires number > 0
    ensures Bound(number, c) >= 0
  {
    PerLeft(number);
    hide Per, Left;
    if c > 0 {
      BoundNonNegative(number, c - 1);
      BoundStep(number, c - 1);
    }
  }

  /** The ranges of `number` masters are consecutive and end with the last slot. */
  lemma {:induction false} Consecutive(number: int)
    requires number > 0
    ensures Bound(number, 0) == 0 && Bound(number, number) == SLOTS
    ensures forall c :: 0 <= c < number - 1 ==> RangeAt(number, c + 1).begin == RangeAt(number, c).end + 1
  {
    PerLeft(number);
    hide Per, Left;
    var p := Per(number);
    assert number * (p + 1) == p * number + number;
  }

  lemma {:induction false} SomeRange(number: int, slot: int, c: nat)
    requires number > 0 && 0 <= slot < Bound(number, c)
    ensures exists k: nat :: k < c && InRange(RangeAt(number, k), slot)
  {
    hide Per, Left;
    if c == 0 {
      Consecutive(number);
    } else {
      if slot < Bound(number, c - 1) {
        SomeRange(number, slot, c - 1);
      } else {
        assert InRange(RangeAt(number, c - 1), slot);
      }
    }
  }

  lemma {:induction false} OneRange(number: int, slot: int, c: nat, d: nat)
    requires number > 0 && InRange(RangeAt(number, c), slot) && InRange(RangeAt(number, d), slot)
    ensures c == d
  {
    hide Bound;
    if c < d {
      BoundsRise(number, c + 1, d);
    } else if d < c {
      BoundsRise(number, d + 1, c);
    }
  }

  /** Every slot lies in the range of exactly one of the masters. */
  lemma {:induction false} EverySlotOnce(number: int, slot: int)
    requires number > 0 && 0 <= slot < SLOTS
    ensures exists c: nat :: c < number && InRange(RangeAt(number, c), slot)
    ensures forall c: nat, d: nat :: InRange(RangeAt(number, c), slot) && InRange(RangeAt(number, d), slot) ==> c == d
  {
    hide Bound, InRange, RangeAt;
    Consecutive(number);
    SomeRange(number, slot, number);
    forall c: nat, d: nat | InRange(RangeAt(number, c), slot) && InRange(RangeAt(number, d), slot)
      ensures c == d
    {
      OneRange(number, slot, c, d);
    }
  }

  /** What the last master is left with. */
  lemma {:induction false} LastBound(number: int)
    requires number > 0
    ensures
      var rest := Per(number) - number + 1;
      Bound(number, number - 1) == if rest > 0 then SLOTS - rest else SLOTS
  {
    PerLeft(number);
    hide Per, Left;
    var p := Per(number);
    assert (number - 1) * (p + 1) == p * number + number - p - 1;
  }

  lemma {:induction false} SquareFits(number: int)
    requires number > 0
    ensures Per(number) >= number <==> number * number <= SLOTS
  {
    PerLeft(number);
    hide Per, Left;
    var p := Per(number);
    if p >= number {
      assert p * number >= number * number;
    } else {
      assert (p + 1) * number <= number * number;
    }
  }

  lemma {:induction false} SquareBound(number: int)
    requires number > 0
    ensures number * number <= SLOTS <==> number <= 128
  {
    if number <= 128 {
      assert number * number <= 128 * number;
    } else {
      assert number * number >= 129 * number;
    }
  }

  /** All ranges are non-empty exactly up to 128 masters; then the last master is short. */
  lemma {:induction false} NonEmptyExactly(number: int)
    requires number > 0
    ensures (forall c :: 0 <= c < number ==> RangeAt(number, c).begin <= RangeAt(number, c).end) <==>
      number * number <= SLOTS
    ensures number * number <= SLOTS <==> number <= 128
    ensures number * number <= SLOTS ==>
              SLOTS - RangeAt(number, number - 1).begin == SLOTS / number - number + 1
    ensures number * number <= SLOTS ==> forall c :: 0 <= c < number - 1 ==>
              RangeAt(number, c).end - RangeAt(number,
                c).begin + 1 == SLOTS / number + 1 + if c < SLOTS % number then 1 else 0
  {
    SquareFits(number);
    SquareBound(number);
    LastBound(number);
    Consecutive(number);
    assert Per(number) == SLOTS / number && Left(number) == SLOTS % number;
    hide Per, Left, Bound;
    if number * number <= SLOTS {
      forall c | 0 <= c < number - 1
        ensures Bound(number, c + 1) - Bound(number, c) == Per(number) + 1 + if c < Left(number) then 1 else 0
      {
        BoundStep(number, c);
        BoundsRise(number, c + 1, number - 1);
      }
      assert RangeAt(number, number - 1).begin <= RangeAt(number, number - 1).end;
      PerLeft(number);
    } else {
      assert !(RangeAt(number, number - 1).begin <= RangeAt(number, number - 1).end);
    }
  }

  /** With 129 masters the last one is given no slot. */
  lemma {:induction false} NothingForThe129th()
    ensures RangeAt(129, 128) == Range(SLOTS, SLOTS - 1)
  {
    assert SLOTS / 129 == 127;
    LastBound(129);
    Consecutive(129);
  }

  lemma {:induction false} RankRises(nodes: seq<Node>, i: nat, k: nat)
    requires i < k <= |nodes|
    ensures Rank(nodes, i) <= Rank(nodes, k)
    ensures nodes[i].role == Master ==> Rank(nodes, i) < Rank(nodes, k)
    decreases k
  {
    if i < k - 1 {
      RankRises(nodes, i, k - 1);
    }
  }

  lemma {:induction false} RankTaken(nodes: seq<Node>, c: nat, k: nat) returns (i: nat)
    requires k <= |nodes| && c < Rank(nodes, k)
    ensures i < k && nodes[i].role == Master && Rank(nodes, i) == c
    decreases k
  {
    if c < Rank(nodes, k - 1) {
      i := RankTaken(nodes, c, k - 1);
    } else {
      i := k - 1;
    }
  }
}
