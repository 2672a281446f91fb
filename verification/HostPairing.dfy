/**
 The greedy pairing of platform/chunk/chunk.go: repeatedly take the host with most
 nodes left, link it to its least-linked peer and give two nodes of each to a chunk.
 */
module HostPairing {
  import opened Common

  /** One chunk in the making: half of it on `base`, half on `linkTo`. */
  datatype Link = Link(base: string, linkTo: string)

  /** Three different positions of a non-negative sequence never exceed its sum. */
  lemma {:induction false} SumOfThree(c: seq<int>, i: nat, j: nat, k: nat)
    requires i < |c| && j < |c| && k < |c| && i != j && j != k && i != k
    requires forall x :: 0 <= x < |c| ==> c[x] >= 0
    ensures c[i] + c[j] + c[k] <= Sum(c)
  {
    var d := c[i := 0][j := 0][k := 0];
    SumUpdate(c, i, 0);
    SumUpdate(c[i := 0], j, 0);
    SumUpdate(c[i := 0][j := 0], k, 0);
    SumNonNegative(d);
  }

  // ---------------------------------------------------------------- the invariant

  ghost predicate AllEven(c: seq<int>) {
    forall i :: 0 <= i < |c| ==> c[i] >= 0 && c[i] % 2 == 0
  }

  ghost predicate NoneDominates(c: seq<int>) {
    forall i :: 0 <= i < |c| ==> 2 * c[i] <= Sum(c)
  }

  /** The premises of doc/chunk.text: what makes the residual node counts pairable. */
  ghost predicate Drainable(c: seq<int>) {
    AllEven(c) && Sum(c) % 4 == 0 && NoneDominates(c)
  }

  ghost predicate IsMax(c: seq<int>, m: int) {
    0 <= m < |c| && forall i :: 0 <= i < |c| ==> c[i] <= c[m]
  }

  ghost function Paired(c: seq<int>, m: nat, p: nat): seq<int>
    requires m < |c| && p < |c|
  {
    c[m := c[m] - 2][p := c[p] - 2]
  }

  /** Beside a linked pair, every other host leaves room for four more nodes. */
  lemma {:induction false} RoomBesideLink(c: seq<int>, m: nat, p: nat, q: nat)
    requires Drainable(c) && IsMax(c, m) && p < |c| && q < |c| && m != p && p != q && q != m
    requires c[p] >= 2
    ensures 2 * c[q] + 4 <= Sum(c)
  {
    var half, most, quarter := c[q] / 2, c[m] / 2, Sum(c) / 4;
    assert c[q] == 2 * half && c[m] == 2 * most && Sum(c) == 4 * quarter;
    if half == most {
      SumOfThree(c, m, p, q);
    }
  }

  lemma PairKeepsEven(c: seq<int>, m: nat, p: nat)
    requires AllEven(c) && IsMax(c, m) && p < |c| && p != m && c[p] >= 2
    ensures AllEven(Paired(c, m, p))
  {
  }

  lemma {:induction false} PairTakesFour(c: seq<int>, m: nat, p: nat)
    requires m < |c| && p < |c| && m != p
    ensures Sum(Paired(c, m, p)) == Sum(c) - 4
  {
    SumUpdate(c, m, c[m] - 2);
    SumUpdate(c[m := c[m] - 2], p, c[p] - 2);
  }

  /** One link between a largest host and any live peer keeps the counts pairable. */
  lemma {:induction false} PairKeepsDrainable(c: seq<int>, m: nat, p: nat)
    requires Drainable(c) && IsMax(c, m) && p < |c| && p != m && c[p] >= 2
    ensures Drainable(Paired(c, m, p))
  {
    var d := Paired(c, m, p);
    PairKeepsEven(c, m, p);
    PairTakesFour(c, m, p);
    forall q | 0 <= q < |d|
      ensures 2 * d[q] <= Sum(d)
    {
      if q != m && q != p {
        RoomBesideLink(c, m, p, q);
      }
    }
  }

  ghost predicate NothingLeft(c: seq<int>) {
    forall i :: 0 <= i < |c| ==> c[i] == 0
  }

  ghost predicate TwoLive(c: seq<int>) {
    exists i, j :: 0 <= i < j < |c| && c[i] >= 2 && c[j] >= 2
  }

  /** No host is ever left alone with nodes to pair. */
  lemma {:induction false} LivePeerExists(c: seq<int>, m: nat)
    requires Drainable(c) && m < |c| && c[m] > 0
    ensures TwoLive(c)
  {
    if forall p :: 0 <= p < |c| && p != m ==> c[p] == 0 {
      SumUpdate(c, m, 0);
      SumNonNegative(c[m := 0]);
      assert false;
    }
    var p :| 0 <= p < |c| && p != m && c[p] != 0;
    assert c[p] >= 2 && c[m] >= 2;
  }

  // ---------------------------------------------------------------- the retry measure

  ghost function Row(table: array2<int>, m: nat): (r: seq<int>)
    requires m < table.Length0
    reads table
    ensures |r| == table.Length1 && forall j :: 0 <= j < |r| ==> r[j] == table[m, j]
  {
    seq(table.Length1, j requires 0 <= j < table.Length1 reads table => table[m, j])
  }

  /** How far the exhausted peers of `m` are below the bar a live peer sets in its row. */
  ghost function Deficit(row: seq<int>, c: seq<int>, bar: int): nat
    requires |row| == |c|
  {
    if row == [] then 0
    else Deficit(row[1..], c[1..], bar) + if c[0] < 2 && row[0] <= bar then bar + 1 - row[0] else 0
  }

  lemma {:induction false} DeficitBump(row: seq<int>, c: seq<int>, bar: int, i: nat)
    requires |row| == |c| && i < |row| && c[i] < 2 && row[i] <= bar
    ensures Deficit(row[i := row[i] + 1], c, bar) == Deficit(row, c, bar) - 1
  {
    if i == 0 {
      assert row[0 := row[0] + 1][1..] == row[1..];
    } else {
      assert row[i := row[i] + 1][1..] == row[1..][i - 1 := row[i] + 1];
      DeficitBump(row[1..], c[1..], bar, i - 1);
    }
  }

  // ---------------------------------------------------------------- scans

  ghost predicate FirstMax(c: seq<int>, i: int) {
    IsMax(c, i) && forall j :: 0 <= j < i ==> c[j] < c[i]
  }

  method MaxHost(names: seq<string>, counts: array<int>) returns (name: string, count: int)
    requires counts.Length == |names| > 0
    ensures exists i :: FirstMax(counts[..], i) && name == names[i] && count == counts[i]
  {
    name, count := names[0], counts[0];
    ghost var at := 0;
    for k := 0 to counts.Length
      invariant 0 <= at < counts.Length && name == names[at] && count == counts[at]
      invariant forall j :: 0 <= j < k ==> counts[j] <= count
      invariant forall j :: 0 <= j < at ==> counts[j] < count
    {
      if count < counts[k] {
        name, count, at := names[k], counts[k], k;
      }
    }
    assert FirstMax(counts[..], at);
  }

  ghost predicate FirstLeastLinked(row: seq<int>, m: int, i: int) {
    && 0 <= i < |row| && i != m
    && (forall j :: 0 <= j < |row| && j != m ==> row[i] <= row[j])
    && (forall j :: 0 <= j < i && j != m ==> row[i] < row[j])
  }

  method FindMinLink(table: array2<int>, m: nat) returns (cursor: nat)
    requires m < table.Length0 && table.Length1 >= 2
    ensures FirstLeastLinked(Row(table, m), m, cursor)
  {
    cursor := if m == 0 then 1 else 0;
    for pos := 0 to table.Length1
      invariant 0 <= cursor < table.Length1 && cursor != m
      invariant cursor < pos || cursor == if m == 0 then 1 else 0
      invariant forall j :: 0 <= j < pos && j != m ==> table[m, cursor] <= table[m, j]
      invariant forall j :: 0 <= j < cursor && j != m ==> table[m, cursor] < table[m, j]
    {
      if pos != m && table[m, pos] < table[m, cursor] {
        cursor := pos;
      }
    }
  }

  /** The name index built in front of each loop. */
  method IndexByName(names: seq<string>) returns (index: map<string, nat>)
    requires Distinct(names)
    ensures forall i :: 0 <= i < |names| ==> names[i] in index && index[names[i]] == i
  {
    index := map[];
    for k := 0 to |names|
      invariant forall i :: 0 <= i < k ==> names[i] in index && index[names[i]] == i
    {
      index := index[names[k] := k];
    }
  }

  // ---------------------------------------------------------------- links

  /** The number of links host `h` takes part in; each costs it two nodes. */
  ghost function Uses(links: seq<Link>, h: string): nat {
    if links == [] then 0
    else
      var last := links[|links| - 1];
      Uses(links[..|links| - 1], h) + if last.base == h || last.linkTo == h then 1 else 0
  }

  ghost predicate LinksAcross(links: seq<Link>, names: seq<string>) {
    forall k :: 0 <= k < |links| ==>
      links[k].base != links[k].linkTo && links[k].base in names && links[k].linkTo in names
  }

  /** Nodes are conserved: what a host had is what it still has plus two per link. */
  ghost predicate Conserved(names: seq<string>, before: seq<int>, now: seq<int>, links: seq<Link>) {
    |before| == |now| == |names| &&
    forall i :: 0 <= i < |now| ==> now[i] + 2 * Uses(links, names[i]) == before[i]
  }

  lemma {:induction false} PairConserves(names: seq<string>, before: seq<int>, now: seq<int>, links: seq<Link>, m: nat,
      p: nat)
    requires Distinct(names) && Conserved(names, before, now, links) && m < |now| && p < |now| && m != p
    ensures Conserved(names, before, Paired(now, m, p), links + [Link(names[m], names[p])])
  {
    var more := links + [Link(names[m], names[p])];
    assert more[..|more| - 1] == links;
  }

  /** What every round of the loop keeps. */
  ghost predicate Progress(names: seq<string>, before: seq<int>, now: seq<int>, links: seq<Link>) {
    && Drainable(now) && Conserved(names, before, now, links) && LinksAcross(links, names)
    && 4 * |links| + Sum(now) == Sum(before)
  }

  lemma {:induction false} ProgressStart(names: seq<string>, before: seq<int>)
    requires Drainable(before) && |names| == |before|
    ensures Progress(names, before, before, []) && Sum(before) >= 0
  {
    SumNonNegative(before);
  }

  lemma {:induction false} ProgressStep(names: seq<string>, before: seq<int>, now: seq<int>, links: seq<Link>, m: nat,
      p: nat)
    requires Distinct(names) && Progress(names, before, now, links)
    requires IsMax(now, m) && p < |now| && p != m && now[p] >= 2
    ensures Progress(names, before, Paired(now, m, p), links + [Link(names[m], names[p])])
    ensures 0 <= Sum(Paired(now, m, p)) == Sum(now) - 4
  {
    PairKeepsDrainable(now, m, p);
    PairTakesFour(now, m, p);
    PairConserves(names, before, now, links, m, p);
    SumNonNegative(Paired(now, m, p));
  }

  lemma {:induction false} NoneLeftAlone(names: seq<string>, before: seq<int>, now: seq<int>, links: seq<Link>)
    requires Progress(names, before, now, links)
    ensures NothingLeft(now) || TwoLive(now)
  {
    if !NothingLeft(now) {
      var m :| 0 <= m < |now| && now[m] != 0;
      assert now[m] >= 2;
      LivePeerExists(now, m);
    }
  }

  lemma {:induction false} DrainedAtZero(names: seq<string>, before: seq<int>, now: seq<int>, links: seq<Link>, at: nat)
    requires Progress(names, before, now, links) && IsMax(now, at) && now[at] == 0
    ensures forall i :: 0 <= i < |now| ==> now[i] == 0
    ensures forall i :: 0 <= i < |now| ==> 2 * Uses(links, names[i]) == before[i]
    ensures LinksAcross(links, names) && 4 * |links| == Sum(before)
  {
    SumNonNegative(now);
  }

  /** The two table increments, which the loops always make together. */
  method BumpLink(table: array2<int>, i: nat, j: nat)
    requires table.Length0 == table.Length1 && i < table.Length0 && j < table.Length0 && i != j
    modifies table
    ensures Row(table, j) == old(Row(table, j))[i := old(table[j, i]) + 1]
    ensures Row(table, i) == old(Row(table, i))[j := old(table[i, j]) + 1]
    ensures forall k :: 0 <= k < table.Length0 && k != i && k != j ==> Row(table, k) == old(Row(table, k))
  {
    table[i, j] := table[i, j] + 1;
    table[j, i] := table[j, i] + 1;
  }

  method TakeTwoEach(counts: array<int>, m: nat, p: nat)
    requires m < counts.Length && p < counts.Length && m != p
    modifies counts
    ensures counts[..] == Paired(old(counts[..]), m, p)
  {
    counts[m] := counts[m] - 2;
    counts[p] := counts[p] - 2;
  }

  /** Bumping an exhausted least-linked peer uses up the retry measure. */
  method Retry(table: array2<int>, llh: nat, m: nat, ghost now: seq<int>, ghost peer: nat)
    requires table.Length0 == table.Length1 == |now| && m < |now| && peer < |now| && peer != m
    requires FirstLeastLinked(Row(table, m), m, llh) && now[llh] < 2 <= now[peer]
    modifies table
    ensures Deficit(Row(table, m), now, table[m, peer]) < old(Deficit(Row(table, m), now, table[m, peer]))
  {
    ghost var row := Row(table, m);
    DeficitBump(row, now, row[peer], llh);
    BumpLink(table, llh, m);
    assert Row(table, m) == row[llh := row[llh] + 1] && Row(table, m)[peer] == row[peer];
  }

  /**
   The head of a round, up to the first least-linked peer that still has two nodes. Every
   exhausted peer met on the way gets its table entry bumped and the round starts over.
   */
  method NextPair(names: seq<string>, counts: array<int>, table: array2<int>, index: map<string, nat>)
    returns (done: bool, m: nat, llh: nat)
    requires counts.Length == |names| >= 2 && table.Length0 == table.Length1 == counts.Length
    requires forall i :: 0 <= i < |names| ==> names[i] in index && index[names[i]] == i
    requires NothingLeft(counts[..]) || TwoLive(counts[..])
    modifies table
    ensures FirstMax(counts[..], m) && (done <==> counts[m] == 0)
    ensures !done ==> llh < counts.Length && llh != m && counts[llh] >= 2
    ensures !done ==> FirstLeastLinked(Row(table, m), m, llh)
  {
    ghost var now := counts[..];
    ghost var first, peer := true, 0;
    m, llh := 0, 0;
    while true
      invariant !first ==> FirstMax(now, m) && 0 <= peer < |now| && peer != m && now[peer] >= 2
      decreases first, if first then 0 else Deficit(Row(table, m), now, table[m, peer])
    {
      var name, count := MaxHost(names, counts);
      ghost var at :| FirstMax(counts[..], at) && name == names[at] && count == counts[at];
      if first && count != 0 {
        assert now[at] != 0 && TwoLive(now);
        peer :| 0 <= peer < |now| && peer != at && now[peer] >= 2;
      }
      assert !first ==> m == at;
      m := index[name];
      if count == 0 {
        return true, m, llh;
      }
      llh := FindMinLink(table, m);
      if counts[llh] >= 2 {
        return false, m, llh;
      }
      Retry(table, llh, m, now, peer);
      first := false;
    }
  }

  /**
   The loop shared by `Chunks` (`bumpOnLink` true) and `ChunksAppend` (false). The link
   table may start out as anything. Every link takes four nodes off the sum.
   */
  method DrainIntoLinks(names: seq<string>, counts: array<int>, table: array2<int>, bumpOnLink: bool)
    returns (links: seq<Link>)
    requires counts.Length == |names| >= 2 && table.Length0 == table.Length1 == counts.Length
    requires Distinct(names) && Drainable(counts[..])
    modifies counts, table
    ensures forall i :: 0 <= i < counts.Length ==> counts[i] == 0
    ensures forall i :: 0 <= i < counts.Length ==> 2 * Uses(links, names[i]) == old(counts[i])
    ensures LinksAcross(links, names)
    ensures 4 * |links| == Sum(old(counts[..]))
  {
    ghost var before, now := counts[..], counts[..];
    ProgressStart(names, before);
    var index := IndexByName(names);
    links := [];
    while true
      invariant counts[..] == now
      invariant Progress(names, before, now, links) && Sum(now) >= 0
      decreases Sum(now)
    {
      NoneLeftAlone(names, before, now, links);
      var done, m, llh := NextPair(names, counts, table, index);
      if done {
        DrainedAtZero(names, before, now, links, m);
        break;
      }
      ProgressStep(names, before, now, links, m, llh);
      links := links + [Link(names[m], names[llh])];
      if bumpOnLink {
        BumpLink(table, llh, m);
      }
      TakeTwoEach(counts, m, llh);
      now := counts[..];
    }
  }
}
