/**
 What `reshard` of enri/cluster.go achieves: who owns each slot afterwards, and that no
 other sequence of moves evens out the cluster in fewer steps.
 */
module ReshardPlans {
  import opened Common
  import opened Slots
  import opened Reshard

  // ---------------------------------------------------------------- owners

  /** How many entries of `own` are `i`. */
  function Count(own: seq<nat>, i: nat): nat {
    if own == [] then 0
    else Count(own[..|own| - 1], i) + if own[|own| - 1] == i then 1 else 0
  }

  function Counts(own: seq<nat>, m: nat): (r: seq<int>)
    ensures |r| == m
  {
    seq(m, i requires 0 <= i < m => Count(own, i))
  }

  /** The masters' lists divide all slots, slot `s` being on the list of `own[s]`. */
  ghost predicate Partition(masters: seq<seq<int>>, own: seq<nat>) {
    && |own| == SLOTS && (forall s :: 0 <= s < |own| ==> own[s] < |masters|)
    && forall i :: 0 <= i < |masters| ==> ListOf(masters[i], own, i)
  }

  ghost predicate ListOf(slots: seq<int>, own: seq<nat>, i: nat) {
    Distinct(slots) && forall s :: s in slots <==> 0 <= s < |own| && own[s] == i
  }

  ghost function Held(own: seq<nat>, i: nat): set<int> {
    set s: int | 0 <= s < |own| && own[s] == i
  }

  lemma {:induction false} HeldCount(own: seq<nat>, i: nat)
    ensures |Held(own, i)| == Count(own, i)
  {
    if own == [] {
      assert Held(own, i) == {};
    } else {
      var k := |own| - 1;
      HeldCount(own[..k], i);
      if own[k] == i {
        assert Held(own, i) == Held(own[..k], i) + {k};
      } else {
        assert Held(own, i) == Held(own[..k], i);
      }
    }
  }

  ghost function Elements(s: seq<int>): set<int> { set x | x in s }

  lemma {:induction false} DistinctSize(s: seq<int>)
    requires Distinct(s)
    ensures |Elements(s)| == |s|
  {
    if s == [] {
      assert Elements(s) == {};
    } else {
      var k := |s| - 1;
      DistinctSize(s[..k]);
      assert s == s[..k] + [s[k]];
      assert Elements(s) == Elements(s[..k]) + {s[k]};
      assert s[k] !in Elements(s[..k]);
    }
  }

  lemma {:induction false} ListCount(slots: seq<int>, own: seq<nat>, i: nat)
    requires ListOf(slots, own, i)
    ensures |slots| == Count(own, i)
  {
    DistinctSize(slots);
    HeldCount(own, i);
    assert Elements(slots) == Held(own, i);
  }

  lemma {:induction false} HaveIsCounts(masters: seq<seq<int>>, own: seq<nat>)
    requires Partition(masters, own)
    ensures Have(masters) == Counts(own, |masters|)
  {
    hide ListOf, Count;
    forall i | 0 <= i < |masters|
      ensures Have(masters)[i] == Counts(own, |masters|)[i]
    {
      ListCount(masters[i], own, i);
    }
  }

  lemma {:induction false} CountsSum(own: seq<nat>, m: nat)
    requires forall s :: 0 <= s < |own| ==> own[s] < m
    ensures Sum(Counts(own, m)) == |own|
  {
    if own == [] {
      ZeroSum(Counts(own, m));
    } else {
      var k := |own| - 1;
      var was := Counts(own[..k], m);
      CountsSum(own[..k], m);
      SumUpdate(was, own[k], was[own[k]] + 1);
      assert Counts(own, m) == was[own[k] := was[own[k]] + 1];
    }
  }

  // ---------------------------------------------------------------- sums of surpluses

  function Over(a: seq<int>, b: seq<int>): (r: seq<int>)
    requires |a| == |b|
    ensures |r| == |a| && forall i :: 0 <= i < |r| ==> r[i] == Pos(a[i] - b[i])
  {
    seq(|a|, i requires 0 <= i < |a| => Pos(a[i] - b[i]))
  }

  lemma {:induction false} RunsCount(lens: seq<int>, i: nat)
    requires i < |lens|
    ensures Count(Runs(lens), i) == Pos(lens[i])
    decreases |lens|
  {
    var k := |lens| - 1;
    var tail := seq(Pos(lens[k]), _ => k);
    CountAppend(Runs(lens[..k]), tail, i);
    SameCount(tail, k, i);
    if i < k {
      RunsCount(lens[..k], i);
    } else {
      RunsBelow(lens[..k]);
      NotIn(Runs(lens[..k]), k);
    }
  }

  lemma {:induction false} CountAppend(a: seq<nat>, b: seq<nat>, i: nat)
    ensures Count(a + b, i) == Count(a, i) + Count(b, i)
  {
    if b == [] {
      assert a + b == a;
    } else {
      CountAppend(a, b[..|b| - 1], i);
      assert (a + b)[..|a + b| - 1] == a + b[..|b| - 1];
    }
  }

  lemma {:induction false} SameCount(s: seq<nat>, k: nat, i: nat)
    requires forall j :: 0 <= j < |s| ==> s[j] == k
    ensures Count(s, i) == if i == k then |s| else 0
  {
    if s != [] {
      SameCount(s[..|s| - 1], k, i);
    }
  }

  lemma {:induction false} NotIn(s: seq<nat>, i: nat)
    requires forall j :: 0 <= j < |s| ==> s[j] != i
    ensures Count(s, i) == 0
  {
    if s != [] {
      NotIn(s[..|s| - 1], i);
    }
  }

  lemma {:induction false} RunsBelow(lens: seq<int>)
    ensures forall j :: 0 <= j < |Runs(lens)| ==> Runs(lens)[j] < |lens|
  {
    if lens != [] {
      RunsBelow(lens[..|lens| - 1]);
    }
  }

  lemma {:induction false} RunsLength(a: seq<int>, b: seq<int>)
    requires |a| == |b|
    ensures |Runs(Minus(a, b))| == Sum(Over(a, b))
  {
    if a != [] {
      var k := |a| - 1;
      RunsLength(a[..k], b[..k]);
      assert Minus(a, b)[..k] == Minus(a[..k], b[..k]);
      assert Over(a, b)[..k] == Over(a[..k], b[..k]);
    }
  }

  /** What one side has over the other, less what it lacks, is the difference of the sums. */
  lemma {:induction false} OverBalance(a: seq<int>, b: seq<int>)
    requires |a| == |b|
    ensures Sum(Over(a, b)) - Sum(Over(b, a)) == Sum(a) - Sum(b)
  {
    if a != [] {
      var k := |a| - 1;
      OverBalance(a[..k], b[..k]);
      assert Over(a, b)[..k] == Over(a[..k], b[..k]);
      assert Over(b, a)[..k] == Over(b[..k], a[..k]);
    }
  }

  // ---------------------------------------------------------------- the spares

  function Sources(spares: seq<Spare>): (r: seq<nat>)
    ensures |r| == |spares|
  {
    seq(|spares|, k requires 0 <= k < |spares| => spares[k].src)
  }

  lemma {:induction false} SpareSources(masters: seq<seq<int>>, want: seq<int>)
    requires |masters| == |want| && forall i :: 0 <= i < |want| ==> want[i] >= 0
    ensures Sources(Spares(masters, want)) == Runs(Minus(Have(masters), want))
  {
    if masters != [] {
      var k := |masters| - 1;
      SpareSources(masters[..k], want[..k]);
      assert Minus(Have(masters), want)[..k] == Minus(Have(masters[..k]), want[..k]);
      var tail := Tag(k, Cut(masters[k], want[k]));
      assert Sources(Spares(masters, want)) == Sources(Spares(masters[..k], want[..k])) + Sources(tail);
      assert Sources(tail) == seq(Pos(|masters[k]| - want[k]), _ => k);
    }
  }

  ghost predicate SparesOf(spares: seq<Spare>, masters: seq<seq<int>>) {
    && (forall k :: 0 <= k < |spares| ==> spares[k].src < |masters| && spares[k].slot in masters[spares[k].src])
    && forall j, k :: 0 <= j < k < |spares| && spares[j].src == spares[k].src ==> spares[j].slot != spares[k].slot
  }

  lemma {:induction false} SparesListed(masters: seq<seq<int>>, want: seq<int>)
    requires |masters| == |want| && forall i :: 0 <= i < |masters| ==> Distinct(masters[i])
    ensures SparesOf(Spares(masters, want), masters)
  {
    if masters != [] {
      var k := |masters| - 1;
      SparesListed(masters[..k], want[..k]);
      SparesSnoc(Spares(masters[..k], want[..k]), masters, Cut(masters[k], want[k]));
    }
  }

  lemma {:induction false} SparesSnoc(spares: seq<Spare>, masters: seq<seq<int>>, cut: seq<int>)
    requires masters != [] && SparesOf(spares, masters[..|masters| - 1]) && cut <= masters[|masters| - 1] &&
      Distinct(masters[|masters| - 1])
    ensures SparesOf(spares + Tag(|masters| - 1, cut), masters)
  {
    var k := |masters| - 1;
    var all := spares + Tag(k, cut);
    forall x | 0 <= x < |all|
      ensures all[x].src < |masters| && all[x].slot in masters[all[x].src]
    {
      if x >= |spares| {
        assert all[x].slot == masters[k][x - |spares|];
      }
    }
    forall x, y | 0 <= x < y < |all| && all[x].src == all[y].src
      ensures all[x].slot != all[y].slot
    {
      if y >= |spares| {
        assert all[y].slot == masters[k][y - |spares|];
        if x >= |spares| {
          assert all[x].slot == masters[k][x - |spares|];
        }
      }
    }
  }

  // ---------------------------------------------------------------- carrying out moves

  /** The owners after the moves. */
  function After(own: seq<nat>, moves: seq<Move>): (r: seq<nat>)
    requires forall k :: 0 <= k < |moves| ==> 0 <= moves[k].slot < |own|
    ensures |r| == |own|
  {
    if moves == [] then own
    else
      var k := |moves| - 1;
      After(own, moves[..k])[moves[k].slot := moves[k].dst]
  }

  /** Each move takes a slot from its owner at that time, to another master. */
  ghost predicate Sound(own: seq<nat>, moves: seq<Move>, m: nat) {
    && (forall k :: 0 <= k < |moves| ==> 0 <= moves[k].slot < |own| && moves[k].src < m && moves[k].dst < m)
    && forall k :: 0 <= k < |moves| ==> After(own, moves[..k])[moves[k].slot] == moves[k].src != moves[k].dst
  }

  lemma {:induction false} CountSet(own: seq<nat>, s: nat, d: nat, i: nat)
    requires s < |own|
    ensures Count(own[s := d], i) == Count(own, i) - (if own[s] == i then 1 else 0) + if d == i then 1 else 0
    decreases |own|
  {
    var k := |own| - 1;
    var now := own[s := d];
    if s < k {
      CountSet(own[..k], s, d, i);
      assert now[..k] == own[..k][s := d];
    } else {
      assert now[..k] == own[..k];
    }
  }

  lemma {:induction false} Untouched(own: seq<nat>, moves: seq<Move>, s: int)
    requires forall k :: 0 <= k < |moves| ==> 0 <= moves[k].slot < |own| && moves[k].slot != s
    requires 0 <= s < |own|
    ensures After(own, moves)[s] == own[s]
  {
    if moves != [] {
      Untouched(own, moves[..|moves| - 1], s);
    }
  }

  /** Moves of distinct slots off their owners. */
  ghost predicate Fresh(own: seq<nat>, moves: seq<Move>) {
    && (forall k :: 0 <= k < |moves| ==> 0 <= moves[k].slot < |own| && own[moves[k].slot] == moves[k].src)
    && forall j, k :: 0 <= j < k < |moves| ==> moves[j].slot != moves[k].slot
  }

  function MoveSources(moves: seq<Move>): (r: seq<nat>)
    ensures |r| == |moves|
  {
    seq(|moves|, k requires 0 <= k < |moves| => moves[k].src)
  }

  function MoveTakers(moves: seq<Move>): (r: seq<nat>)
    ensures |r| == |moves|
  {
    seq(|moves|, k requires 0 <= k < |moves| => moves[k].dst)
  }

  lemma {:induction false} FreshOwner(own: seq<nat>, moves: seq<Move>, k: nat)
    requires Fresh(own, moves) && k < |moves|
    ensures After(own, moves[..k])[moves[k].slot] == moves[k].src
  {
    Untouched(own, moves[..k], moves[k].slot);
  }

  lemma {:induction false} CountsAfter(own: seq<nat>, moves: seq<Move>, i: nat)
    requires Fresh(own, moves)
    ensures Count(After(own, moves), i) == Count(own, i) - Count(MoveSources(moves), i) + Count(MoveTakers(moves), i)
  {
    if moves != [] {
      var k := |moves| - 1;
      var init := moves[..k];
      CountsAfter(own, init, i);
      FreshOwner(own, moves, k);
      CountSet(After(own, init), moves[k].slot, moves[k].dst, i);
      assert MoveSources(moves)[..k] == MoveSources(init) && MoveTakers(moves)[..k] == MoveTakers(init);
    }
  }

  // ---------------------------------------------------------------- the result of a reshard

  /** The loop stays inside its migration list exactly when no slot is missing. */
  lemma {:induction false} FinishesExactly(masters: seq<seq<int>>, want: seq<int>, moves: seq<Move>, finished: bool)
    requires masters != [] && Level(want, SLOTS, |masters|)
    requires Carried(Spares(masters, want), Takers(masters, want), moves, finished)
    ensures finished <==> Sum(Have(masters)) >= SLOTS
  {
    hide Spares, Runs, Sum;
    SpareTotals(masters, want);
  }

  lemma {:induction false} SpareTotals(masters: seq<seq<int>>, want: seq<int>)
    requires Level(want, SLOTS, |masters|)
    ensures |Spares(masters, want)| == Sum(Over(Have(masters), want))
    ensures |Takers(masters, want)| == Sum(Over(want, Have(masters)))
    ensures |Spares(masters, want)| - |Takers(masters, want)| == Sum(Have(masters)) - Sum(want)
  {
    hide Spares, Runs, Sum;
    LevelNonNegative(want, SLOTS, |masters|);
    SpareSources(masters, want);
    RunsLength(Have(masters), want);
    RunsLength(want, Have(masters));
    OverBalance(Have(masters), want);
  }

  lemma {:induction false} SparesApart(masters: seq<seq<int>>, own: seq<nat>, spares: seq<Spare>)
    requires Partition(masters, own) && SparesOf(spares, masters)
    ensures forall k :: 0 <= k < |spares| ==> 0 <= spares[k].slot < |own| && own[spares[k].slot] == spares[k].src
    ensures forall j, k :: 0 <= j < k < |spares| ==> spares[j].slot != spares[k].slot
  {
    forall k | 0 <= k < |spares|
      ensures 0 <= spares[k].slot < |own| && own[spares[k].slot] == spares[k].src
    {
      assert ListOf(masters[spares[k].src], own, spares[k].src);
    }
  }

  lemma {:induction false} RunsPositive(lens: seq<int>, j: nat)
    requires j < |Runs(lens)|
    ensures Runs(lens)[j] < |lens| && lens[Runs(lens)[j]] > 0
  {
    var k := |lens| - 1;
    if j < |Runs(lens[..k])| {
      RunsPositive(lens[..k], j);
    } else {
      assert Runs(lens)[j] == k;
    }
  }

  /** All spares are handed out, so each master gives and takes what it has to. */
  lemma {:induction false} PlanFacts(masters: seq<seq<int>>, own: seq<nat>, want: seq<int>, moves: seq<Move>,
      finished: bool)
    requires Partition(masters, own) && Level(want, SLOTS, |masters|)
    requires Carried(Spares(masters, want), Takers(masters, want), moves, finished)
    ensures finished && |moves| == Sum(Over(Have(masters), want))
    ensures MoveSources(moves) == Runs(Minus(Have(masters), want))
    ensures MoveTakers(moves) == Runs(Minus(want, Have(masters)))
    ensures Fresh(own, moves)
  {
    hide Runs, Sum, Spares, Count, SparesOf;
    HaveIsCounts(masters, own);
    CountsSum(own, |masters|);
    SpareTotals(masters, want);
    LevelNonNegative(want, SLOTS, |masters|);
    SpareSources(masters, want);
    assert forall i :: 0 <= i < |masters| ==> ListOf(masters[i], own, i);
    SparesListed(masters, want);
    SparesApart(masters, own, Spares(masters, want));
    hide Partition, ListOf, Level, Takers, Minus, Have, Over;
    Handed(own, Spares(masters, want), Takers(masters, want), moves);
  }

  lemma Handed(own: seq<nat>, spares: seq<Spare>, takers: seq<nat>, moves: seq<Move>)
    requires |spares| == |takers| == |moves| && moves == Planned(spares, takers, |moves|)
    requires forall k :: 0 <= k < |spares| ==> 0 <= spares[k].slot < |own| && own[spares[k].slot] == spares[k].src
    requires forall j, k :: 0 <= j < k < |spares| ==> spares[j].slot != spares[k].slot
    ensures MoveSources(moves) == Sources(spares) && MoveTakers(moves) == takers && Fresh(own, moves)
  {
  }

  /**
   A reshard of masters that divide the slots finishes, takes each slot from its owner to
   another master, and leaves the level division.
   */
  lemma {:induction false} ReshardLevels(masters: seq<seq<int>>, own: seq<nat>, want: seq<int>, moves: seq<Move>,
      finished: bool)
    requires Partition(masters, own) && Level(want, SLOTS, |masters|)
    requires Carried(Spares(masters, want), Takers(masters, want), moves, finished)
    ensures finished && Sound(own, moves, |masters|) && Fresh(own, moves)
    ensures Counts(After(own, moves), |masters|) == want
  {
    var m := |masters|;
    PlanFacts(masters, own, want, moves, finished);
    HaveIsCounts(masters, own);
    hide Runs, Sum, Spares, Carried, Partition, Level, Count, Takers;
    var out, into := Minus(Have(masters), want), Minus(want, Have(masters));
    forall k | 0 <= k < |moves|
      ensures moves[k].src < m && moves[k].dst < m && moves[k].src != moves[k].dst
      ensures 0 <= moves[k].slot < |own|
      ensures After(own, moves[..k])[moves[k].slot] == moves[k].src
    {
      FreshOwner(own, moves, k);
      RunsPositive(out, k);
      RunsPositive(into, k);
      assert MoveSources(moves)[k] == moves[k].src && MoveTakers(moves)[k] == moves[k].dst;
    }
    forall i | 0 <= i < m
      ensures Count(After(own, moves), i) == want[i]
    {
      CountsAfter(own, moves, i);
      RunsCount(out, i);
      RunsCount(into, i);
      assert Have(masters)[i] == Counts(own, m)[i] == Count(own, i);
    }
  }

  // ---------------------------------------------------------------- no plan is shorter

  /** In how many places two owner lists differ. */
  function Diffs(a: seq<nat>, b: seq<nat>): nat
    requires |a| == |b|
  {
    if a == [] then 0
    else Diffs(a[..|a| - 1], b[..|b| - 1]) + if a[|a| - 1] == b[|b| - 1] then 0 else 1
  }

  lemma {:induction false} DiffsSet(a: seq<nat>, b: seq<nat>, s: nat, d: nat)
    requires |a| == |b| && s < |b|
    ensures Diffs(a, b[s := d]) <= Diffs(a, b) + 1
    decreases |a|
  {
    var k := |a| - 1;
    var c := b[s := d];
    if s < k {
      DiffsSet(a[..k], b[..k], s, d);
      assert c[..k] == b[..k][s := d];
    } else {
      assert c[..k] == b[..k];
    }
  }

  lemma {:induction false} DiffsSelf(a: seq<nat>)
    ensures Diffs(a, a) == 0
  {
    if a != [] {
      DiffsSelf(a[..|a| - 1]);
    }
  }

  lemma {:induction false} DiffsAtMostMoves(own: seq<nat>, moves: seq<Move>)
    requires forall k :: 0 <= k < |moves| ==> 0 <= moves[k].slot < |own|
    ensures Diffs(own, After(own, moves)) <= |moves|
  {
    if moves == [] {
      DiffsSelf(own);
    } else {
      var k := |moves| - 1;
      DiffsAtMostMoves(own, moves[..k]);
      DiffsSet(own, After(own, moves[..k]), moves[k].slot, moves[k].dst);
    }
  }

  lemma {:induction false} OverBump(a: seq<int>, b: seq<int>, i: nat, x: int)
    requires |a| == |b| && i < |a|
    ensures Sum(Over(a[i := x], b)) == Sum(Over(a, b)) + Pos(x - b[i]) - Pos(a[i] - b[i])
    ensures Sum(Over(b, a[i := x])) == Sum(Over(b, a)) + Pos(b[i] - x) - Pos(b[i] - a[i])
  {
    hide Sum, Over;
    var over, under := Over(a, b), Over(b, a);
    SumUpdate(over, i, Pos(x - b[i]));
    SumUpdate(under, i, Pos(b[i] - x));
    assert Over(a[i := x], b) == over[i := Pos(x - b[i])];
    assert Over(b, a[i := x]) == under[i := Pos(b[i] - x)];
  }

  lemma CountsSnoc(own: seq<nat>, m: nat)
    requires own != [] && own[|own| - 1] < m
    ensures
      var k := |own| - 1;
      var was := Counts(own[..k], m);
      Counts(own, m) == was[own[k] := was[own[k]] + 1]
  {
  }

  lemma {:induction false} NothingOver(a: seq<int>)
    ensures Sum(Over(a, a)) == 0
  {
    hide Over, Sum;
    ZeroSum(Over(a, a));
  }

  lemma {:induction false} OverStep(ca: seq<int>, cb: seq<int>, x: nat, y: nat)
    requires |ca| == |cb| && x < |ca| && y < |cb|
    ensures Sum(Over(ca[x := ca[x] + 1], cb[y := cb[y] + 1])) <= Sum(Over(ca, cb)) + if x == y then 0 else 1
  {
    hide Sum, Over;
    var more := ca[x := ca[x] + 1];
    OverBump(ca, cb, x, ca[x] + 1);
    OverBump(cb, more, y, cb[y] + 1);
  }

  /** Owners differ in at least as many places as the counts say slots have left. */
  lemma {:induction false} DiffsAtLeast(a: seq<nat>, b: seq<nat>, m: nat)
    requires |a| == |b| && (forall s :: 0 <= s < |a| ==> a[s] < m && b[s] < m)
    ensures Sum(Over(Counts(a, m), Counts(b, m))) <= Diffs(a, b)
  {
    hide Sum, Over, Counts;
    if a == [] {
      assert a == b;
      NothingOver(Counts(a, m));
    } else {
      var k := |a| - 1;
      DiffsAtLeast(a[..k], b[..k], m);
      CountsSnoc(a, m);
      CountsSnoc(b, m);
      OverStep(Counts(a[..k], m), Counts(b[..k], m), a[k], b[k]);
    }
  }

  ghost predicate Descending(s: seq<int>) { forall i, j :: 0 <= i < j < |s| ==> s[i] >= s[j] }

  /** Counts that differ by at most one. */
  ghost predicate Even(s: seq<int>) { forall i, j :: 0 <= i < |s| && 0 <= j < |s| ==> s[i] <= s[j] + 1 }

  /** Every even division has the two sizes of the level one. */
  lemma {:induction false} EvenSizes(c: seq<int>, want: seq<int>, n: int, m: int)
    requires m > 0 && Level(want, n, m) && Even(c) && |c| == m && Sum(c) == n
    ensures forall i :: 0 <= i < m ==> want[m - 1] <= c[i] <= want[m - 1] + 1
  {
    hide Sum;
    var a := want[m - 1];
    if i :| 0 <= i < m && c[i] > a + 1 {
      assert forall k :: 0 <= k < m ==> want[k] <= c[k];
      SumOrder(want, c);
    } else if i :| 0 <= i < m && c[i] < a {
      assert forall k :: 0 <= k < m ==> c[k] <= want[k];
      SumOrder(c, want);
    }
  }

  function Plus(a: seq<int>, b: seq<int>): (r: seq<int>)
    requires |a| == |b|
    ensures |r| == |a| && forall i :: 0 <= i < |r| ==> r[i] == a[i] + b[i]
  {
    seq(|a|, i requires 0 <= i < |a| => a[i] + b[i])
  }

  lemma {:induction false} SumPlus(a: seq<int>, b: seq<int>)
    requires |a| == |b|
    ensures Sum(Plus(a, b)) == Sum(a) + Sum(b)
  {
    if a != [] {
      var k := |a| - 1;
      SumPlus(a[..k], b[..k]);
      assert Plus(a, b)[..k] == Plus(a[..k], b[..k]);
    }
  }

  ghost predicate Sized(c: seq<int>, a: int) { forall i :: 0 <= i < |c| ==> a <= c[i] <= a + 1 }

  /** Every larger share goes to a holder of more than the smaller. */
  lemma {:induction false} EnoughLarge(have: seq<int>, c: seq<int>, want: seq<int>, a: int)
    requires |have| == |c| == |want| && Sum(c) == Sum(want) && Sized(c, a) && Sized(want, a)
    requires forall i :: 0 <= i < |want| && want[i] > a ==> have[i] > a
    ensures Sum(Over(have, want)) <= Sum(Over(have, c))
  {
    hide Sum, Over, Plus;
    var x, y := Plus(Over(have, want), want), Plus(Over(have, c), c);
    assert forall k :: 0 <= k < |want| ==> x[k] <= y[k];
    SumOrder(x, y);
    SumPlus(Over(have, want), want);
    SumPlus(Over(have, c), c);
  }

  /** Every holder of more than the smaller share gets a larger one. */
  lemma {:induction false} LargeServed(have: seq<int>, c: seq<int>, want: seq<int>, a: int)
    requires |have| == |c| == |want| && Sized(c, a) && Sized(want, a)
    requires forall i :: 0 <= i < |want| && have[i] > a ==> want[i] > a
    ensures Sum(Over(have, want)) <= Sum(Over(have, c))
  {
    hide Sum, Over;
    SumOrder(Over(have, want), Over(have, c));
  }

  /** Giving the larger shares to the larger holders leaves the least to move. */
  lemma {:induction false} LevelMovesLeast(have: seq<int>, c: seq<int>, want: seq<int>, n: int, m: int)
    requires m > 0 && Level(want, n, m) && Even(c) && |c| == m && Sum(c) == n && |have| == m && Descending(have)
    ensures Sum(Over(have, want)) <= Sum(Over(have, c))
  {
    hide Sum, Over;
    var a := want[m - 1];
    EvenSizes(c, want, n, m);
    assert Sized(want, a);
    if i :| 0 <= i < m && want[i] > a && have[i] <= a {
      forall k | 0 <= k < m && have[k] > a
        ensures want[k] > a
      {
        assert k < i;
      }
      LargeServed(have, c, want, a);
    } else {
      EnoughLarge(have, c, want, a);
    }
  }

  /**
   Among all sequences of moves that leave every slot owned and the counts within one of
   each other, `reshard` on masters sorted by descending count takes the fewest.
   */
  lemma {:induction false} FewestMoves(masters: seq<seq<int>>, own: seq<nat>, want: seq<int>, moves: seq<Move>,
      finished: bool, other: seq<Move>)
    requires masters != [] && Partition(masters, own) && Level(want, SLOTS, |masters|) && Descending(Have(masters))
    requires Carried(Spares(masters, want), Takers(masters, want), moves, finished)
    requires forall k :: 0 <= k < |other| ==> 0 <= other[k].slot < SLOTS && other[k].dst < |masters|
    requires Even(Counts(After(own, other), |masters|))
    ensures |moves| <= |other|
  {
    var m := |masters|;
    PlanFacts(masters, own, want, moves, finished);
    HaveIsCounts(masters, own);
    var now := After(own, other);
    StillOwned(own, other, m);
    CountsSum(now, m);
    hide Sum, Over, Counts, After, Spares, Takers, Carried, Runs;
    LevelMovesLeast(Have(masters), Counts(now, m), want, SLOTS, m);
    DiffsAtLeast(own, now, m);
    DiffsAtMostMoves(own, other);
  }

  lemma {:induction false} StillOwned(own: seq<nat>, moves: seq<Move>, m: nat)
    requires forall s :: 0 <= s < |own| ==> own[s] < m
    requires forall k :: 0 <= k < |moves| ==> 0 <= moves[k].slot < |own| && moves[k].dst < m
    ensures forall s :: 0 <= s < |own| ==> After(own, moves)[s] < m
  {
    if moves != [] {
      StillOwned(own, moves[..|moves| - 1], m);
    }
  }
}
