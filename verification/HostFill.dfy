/**
 The levelling fill of platform/chunk/chunk.go: how many nodes every host receives before
 any two hosts are paired. Hosts are listed with the smallest capacity first, because
 `byCountDesc` orders them ascending.
 */
module HostFill {
  import opened Common
  import opened HostPairing

  ghost predicate FirstMin(c: seq<int>, i: int) {
    && 0 <= i < |c|
    && (forall j :: 0 <= j < |c| ==> c[i] <= c[j])
    && (forall j :: 0 <= j < i ==> c[i] < c[j])
  }

  /** Hosts that a scan starting at host 0 can pick at all: capacity is tested on host 0. */
  ghost predicate Eligible(caps: seq<int>, hosts: seq<int>, max: int, scale: int, j: int) {
    0 <= j < |hosts| && |caps| > 0 && hosts[j] < max && hosts[j] + scale <= caps[0]
  }

  ghost predicate SmallestFirst(caps: seq<int>) {
    |caps| > 0 && forall j :: 0 <= j < |caps| ==> caps[0] <= caps[j]
  }

  /**
   The scan compares the candidate with the capacity of the best host so far, not with its
   own. With the smallest host first it finds the first emptiest host if anything is
   eligible, and falls back to host 0 otherwise.
   */
  method FindMinHrs(caps: seq<int>, hosts: array<int>, max: int, scale: int) returns (i: nat)
    requires SmallestFirst(caps) && hosts.Length == |caps|
    ensures i < hosts.Length
    ensures (exists j :: Eligible(caps, hosts[..], max, scale, j)) ==> FirstMin(hosts[..], i)
    ensures !(exists j :: Eligible(caps, hosts[..], max, scale, j)) ==> i == 0
  {
    i := 0;
    var min := max;
    ghost var found := false;
    for idx := 0 to hosts.Length
      invariant 0 <= i < hosts.Length
      invariant !found ==> i == 0 && min == max && forall j :: 0 <= j < idx ==>
        hosts[j] >= max || hosts[j] + scale > caps[0]
      invariant found ==> i < idx && min == hosts[i] && Eligible(caps, hosts[..], max, scale, i)
      invariant found ==> forall j :: 0 <= j < idx ==> hosts[i] <= hosts[j]
      invariant found ==> forall j :: 0 <= j < i ==> hosts[i] < hosts[j]
    {
      if hosts[idx] < min && caps[i] - hosts[idx] >= scale {
        min, i, found := hosts[idx], idx, true;
      }
    }
    if !found {
      assert forall j :: !Eligible(caps, hosts[..], max, scale, j);
    } else {
      assert Eligible(caps, hosts[..], max, scale, i);
    }
  }

  // ---------------------------------------------------------------- the closed form

  /** Full rounds and position in the current round after `k` turns of `n` players. */
  ghost function Turn(n: nat, k: nat): (t: (nat, nat))
    requires n > 0
    ensures t.1 < n
  {
    if k == 0 then (0, 0)
    else
      var (q, r) := Turn(n, k - 1);
      if r + 1 == n then (q + 1, 0) else (q, r + 1)
  }

  lemma {:induction false} TurnIsDivMod(n: nat, k: nat)
    requires n > 0
    ensures k == Turn(n, k).0 * n + Turn(n, k).1
    ensures Turn(n, k).0 <= k
  {
    if k != 0 {
      TurnIsDivMod(n, k - 1);
      var q := Turn(n, k - 1).0;
      assert (q + 1) * n == q * n + n;
    }
  }

  /**
   The host that gets pair number `k` when all `n` hosts together have room for `room` pairs
   at the level of the smallest: round robin while that lasts, then always host 0.
   */
  ghost function Pick(n: nat, room: nat, k: nat): (i: nat)
    requires n > 0
    ensures i < n
  {
    if k < room then Turn(n, k).1 else 0
  }

  /** What the hosts hold after `k` pairs. */
  ghost function Fill(n: nat, room: nat, k: nat): (h: seq<int>)
    requires n > 0
    ensures |h| == n
  {
    if k == 0 then seq(n, _ => 0)
    else
      var h := Fill(n, room, k - 1);
      var i := Pick(n, room, k - 1);
      h[i := h[i] + 2]
  }

  lemma {:induction false} MulGap(n: nat, a: nat, b: nat)
    requires a < b
    ensures a * n + n <= b * n
  {
    assert b * n == (b - 1) * n + n;
    if a < b - 1 {
      MulGap(n, a, b - 1);
    }
  }

  /** While there is room the current round is below the smallest host's capacity. */
  lemma {:induction false} TurnBelow(n: nat, d: nat, k: nat)
    requires n > 0
    ensures k < d * n <==> Turn(n, k).0 < d
    ensures k <= d * n ==> Turn(n, k).0 <= d
    ensures k == d * n ==> Turn(n, k) == (d, 0)
  {
    TurnIsDivMod(n, k);
    var q := Turn(n, k).0;
    if q < d {
      MulGap(n, q, d);
    } else if d < q {
      MulGap(n, d, q);
    }
  }

  /** The fill in closed form, `d` being the pairs that fit on the smallest host. */
  lemma {:induction false} FillShare(n: nat, d: nat, room: nat, k: nat, i: nat)
    requires i < n && room == d * n
    ensures k <= room ==> Fill(n, room, k)[i] == 2 * (Turn(n, k).0 + if i < Turn(n, k).1 then 1 else 0)
    ensures k >= room ==> Fill(n, room, k)[i] == 2 * (d + if i == 0 then k - room else 0)
  {
    if k != 0 {
      FillShare(n, d, room, k - 1, i);
    }
    if k == room {
      TurnBelow(n, d, k);
    }
  }

  /** The scan picks the host the closed form says. */
  lemma {:induction false} ScanPicks(caps: seq<int>, d: nat, room: nat, m: nat, k: nat, i: nat)
    requires SmallestFirst(caps) && room == d * |caps| && caps[0] <= 2 * d && (d > 0 ==> caps[0] == 2 * d)
    requires k < m && i < |caps|
    requires (exists j :: Eligible(caps, Fill(|caps|, room, k), 2 * m, 2, j)) ==> FirstMin(Fill(|caps|, room, k), i)
    requires !(exists j :: Eligible(caps, Fill(|caps|, room, k), 2 * m, 2, j)) ==> i == 0
    ensures i == Pick(|caps|, room, k)
  {
    var n := |caps|;
    var h := Fill(n, room, k);
    var r := Turn(n, k).1;
    TurnBelow(n, d, k);
    TurnIsDivMod(n, k);
    FillShare(n, d, room, k, i);
    FillShare(n, d, room, k, r);
    if k < room {
      assert Eligible(caps, h, 2 * m, 2, r);
    } else {
      forall j | 0 <= j < n
        ensures !Eligible(caps, h, 2 * m, 2, j)
      {
        FillShare(n, d, room, k, j);
      }
    }
  }

  /** Pairs of nodes that fit on the smallest host. */
  ghost function SmallestPairs(caps: seq<int>): nat
    requires |caps| > 0
  {
    if caps[0] < 0 then 0 else caps[0] / 2
  }

  /** Pairs all hosts can take together at the level of the smallest. */
  ghost function LevelRoom(caps: seq<int>): nat
    requires |caps| > 0
  {
    SmallestPairs(caps) * |caps|
  }

  lemma FillStep(n: nat, room: nat, k: nat)
    requires n > 0
    ensures
      var h, i := Fill(n, room, k), Pick(n, room, k);
      Fill(n, room, k + 1) == h[i := h[i] + 2]
  {
  }

  lemma {:induction false} FillStart(n: nat, room: nat, h: seq<int>)
    requires n > 0 && |h| == n && forall i :: 0 <= i < n ==> h[i] == 0
    ensures h == Fill(n, room, 0) && Sum(h) == 0
  {
    SumNonNegative(h);
  }

  lemma {:induction false} FillEven(n: nat, d: nat, room: nat, k: nat)
    requires n > 0 && room == d * n
    ensures AllEven(Fill(n, room, k))
  {
    hide Fill, Turn;
    var h := Fill(n, room, k);
    forall i | 0 <= i < n
      ensures h[i] >= 0 && h[i] % 2 == 0
    {
      FillShare(n, d, room, k, i);
    }
  }

  /** `dpFillHostRes` without earlier chunks: `count` nodes handed out two at a time. */
  method DpFillHostRes(caps: seq<int>, count: nat) returns (hosts: array<int>)
    requires SmallestFirst(caps) && caps[0] % 2 == 0 && count % 2 == 0
    ensures fresh(hosts)
    ensures hosts[..] == Fill(|caps|, LevelRoom(caps), count / 2)
    ensures AllEven(hosts[..]) && Sum(hosts[..]) == count
  {
    hide Fill, Pick, Sum, AllEven, Turn;
    var left := count;
    hosts := new int[|caps|](_ => 0);
    ghost var m, k, room := count / 2, 0, LevelRoom(caps);
    FillStart(|caps|, room, hosts[..]);
    while true
      invariant 0 <= left == 2 * (m - k)
      invariant hosts[..] == Fill(|caps|, room, k)
      invariant Sum(hosts[..]) == 2 * k
      decreases left
    {
      var i := FindMinHrs(caps, hosts, count, 2);
      if left == 0 {
        FillEven(|caps|, SmallestPairs(caps), room, k);
        break;
      }
      ghost var h := hosts[..];
      ScanPicks(caps, SmallestPairs(caps), room, m, k, i);
      SumUpdate(h, i, h[i] + 2);
      FillStep(|caps|, room, k);
      hosts[i] := hosts[i] + 2;
      left := left - 2;
      assert hosts[..] == h[i := h[i] + 2];
      k := k + 1;
    }
  }

  // ---------------------------------------------------------------- what the fill achieves

  /** The level share of one host, in pairs. */
  ghost function CeilDiv(m: nat, n: nat): nat
    requires n > 0
  {
    (m + n - 1) / n
  }

  lemma {:induction false} CeilDivBound(m: nat, n: nat, d: nat)
    requires n > 0
    ensures CeilDiv(m, n) <= d <==> m <= d * n
  {
    var x := m + n - 1;
    var q, r := x / n, x % n;
    assert x == q * n + r;
    if q < d {
      MulGap(n, q, d);
    } else if d < q {
      MulGap(n, d, q);
    }
  }

  lemma {:induction false} CeilDivIsTurn(m: nat, n: nat)
    requires n > 0
    ensures CeilDiv(m, n) == Turn(n, m).0 + if Turn(n, m).1 == 0 then 0 else 1
  {
    var (q, r) := Turn(n, m);
    TurnIsDivMod(n, m);
    var up := q + if r == 0 then 0 else 1;
    assert (q + 1) * n == q * n + n;
    CeilDivBound(m, n, up);
    if up > 0 {
      assert (q - 1) * n == q * n - n;
      CeilDivBound(m, n, up - 1);
    }
  }

  /**
   The fill respects every capacity exactly when the smallest host can hold the level share
   of `ceil(m / n)` pairs; otherwise host 0 is the one that overflows.
   */
  lemma {:induction false} FillFitsExactly(caps: seq<int>, m: nat)
    requires SmallestFirst(caps) && caps[0] % 2 == 0 && m > 0
    ensures
      var n := |caps|;
      var h := Fill(n, LevelRoom(caps), m);
      && ((forall i :: 0 <= i < n ==> h[i] <= caps[i]) <==> 2 * CeilDiv(m, n) <= caps[0])
      && (2 * CeilDiv(m, n) > caps[0] ==> h[0] > caps[0])
  {
    var n, d, room := |caps|, SmallestPairs(caps), LevelRoom(caps);
    var h := Fill(n, room, m);
    CeilDivBound(m, n, d);
    CeilDivBound(m, n, 0);
    FillShare(n, d, room, m, 0);
    if m <= room {
      FillIsLevel(n, d, room, m);
    }
  }

  /** A fill that fits is level: any two hosts differ by at most one pair. */
  lemma {:induction false} FillIsLevel(n: nat, d: nat, room: nat, m: nat)
    requires n > 0 && room == d * n && m <= room
    ensures CeilDiv(m, n) <= d
    ensures Fill(n, room, m)[0] == 2 * CeilDiv(m, n)
    ensures forall i :: 0 <= i < n ==> 2 * CeilDiv(m, n) - 2 <= Fill(n, room, m)[i] <= 2 * CeilDiv(m, n)
  {
    CeilDivBound(m, n, d);
    CeilDivIsTurn(m, n);
    forall i | 0 <= i < n
      ensures 2 * CeilDiv(m, n) - 2 <= Fill(n, room, m)[i] <= 2 * CeilDiv(m, n)
    {
      FillShare(n, d, room, m, i);
    }
    FillShare(n, d, room, m, 0);
  }

  /** A fill that does not fit: every host at the level of the smallest, the rest on host 0. */
  lemma {:induction false} FillOverflows(caps: seq<int>, m: nat)
    requires SmallestFirst(caps) && caps[0] % 2 == 0 && m > 0 && 2 * CeilDiv(m, |caps|) > caps[0]
    ensures
      var n, level := |caps|, if caps[0] < 0 then 0 else caps[0];
      var h := Fill(n, LevelRoom(caps), m);
      && h[0] == 2 * m - level * (n - 1) > level
      && forall i :: 1 <= i < n ==> h[i] == level
  {
    hide Fill, Turn;
    var n, d, room := |caps|, SmallestPairs(caps), LevelRoom(caps);
    CeilDivBound(m, n, d);
    assert 2 * d * (n - 1) == 2 * (d * n) - 2 * d;
    forall i | 0 <= i < n
      ensures Fill(n, room, m)[i] == 2 * (d + if i == 0 then m - room else 0)
    {
      FillShare(n, d, room, m, i);
    }
  }

  lemma {:induction false} TwiceHalfFits(n: nat, half: nat)
    requires n >= 3 && half >= 2
    ensures 2 * half <= (half - 1) * n <==> !(n == 3 && half == 2)
  {
    if half == 2 {
      assert (half - 1) * n == n;
    } else {
      assert (half - 1) * n == (half - 1) * 3 + (half - 1) * (n - 3);
      assert (half - 1) * (n - 3) >= 0;
    }
  }

  /** Of all shapes in range, a level fill breaks the half rule only for 3 hosts and 4 masters. */
  lemma {:induction false} LevelShareBelowHalf(n: nat, masters: nat)
    requires n >= 3 && masters >= 4 && masters % 2 == 0
    ensures 2 * CeilDiv(masters, n) < masters <==> !(n == 3 && masters == 4)
  {
    var half := masters / 2;
    assert masters == 2 * half;
    TwiceHalfFits(n, half);
    CeilDivBound(masters, n, half - 1);
  }
}
