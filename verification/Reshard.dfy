/**
 Evening out the slots of a live cluster: `reshard` of enri/cluster.go.
 */
module Reshard {
  import opened Slots

  /** A slot that its holder is to give away. */
  datatype Spare = Spare(src: nat, slot: int)

  datatype Move = Move(src: nat, dst: nat, slot: int)

  function Pos(x: int): nat { if x > 0 then x else 0 }

  /** `k` once for each unit of `lens[k]`, for each `k` in turn. */
  function Runs(lens: seq<int>): seq<nat> {
    if lens == [] then []
    else
      var k := |lens| - 1;
      Runs(lens[..k]) + seq(Pos(lens[k]), _ => k)
  }

  function Have(masters: seq<seq<int>>): (have: seq<int>)
    ensures |have| == |masters|
  {
    seq(|masters|, i requires 0 <= i < |masters| => |masters[i]|)
  }

  function Minus(a: seq<int>, b: seq<int>): (d: seq<int>)
    requires |a| == |b|
    ensures |d| == |a|
  {
    seq(|a|, i requires 0 <= i < |a| => a[i] - b[i])
  }

  function Tag(src: nat, slots: seq<int>): (r: seq<Spare>)
    ensures |r| == |slots|
  {
    seq(|slots|, j requires 0 <= j < |slots| => Spare(src, slots[j]))
  }

  /** The slots of a master above its share. */
  function Cut(slots: seq<int>, want: int): seq<int> {
    if 0 <= want < |slots| then slots[..|slots| - want] else []
  }

  function Spares(masters: seq<seq<int>>, want: seq<int>): seq<Spare>
    requires |masters| == |want|
  {
    if masters == [] then []
    else
      var k := |masters| - 1;
      Spares(masters[..k], want[..k]) + Tag(k, Cut(masters[k], want[k]))
  }

  function Takers(masters: seq<seq<int>>, want: seq<int>): seq<nat>
    requires |masters| == |want|
  {
    Runs(Minus(want, Have(masters)))
  }

  /** The first `k` spares handed to the first `k` takers. */
  function Planned(spares: seq<Spare>, takers: seq<nat>, k: nat): (r: seq<Move>)
    requires k <= |spares| && k <= |takers|
    ensures |r| == k
  {
    seq(k, i requires 0 <= i < k => Move(spares[i].src, takers[i], spares[i].slot))
  }

  // ---------------------------------------------------------------- the operation

  method Collect(masters: seq<seq<int>>, want: seq<int>) returns (migrate: seq<Spare>)
    requires |masters| == |want| && forall i :: 0 <= i < |want| ==> want[i] >= 0
    ensures migrate == Spares(masters, want)
  {
    migrate := [];
    for i := 0 to |masters|
      invariant migrate == Spares(masters[..i], want[..i])
    {
      var delta := |masters[i]| - want[i];
      ghost var before := migrate;
      var j := 0;
      while j < delta
        invariant 0 <= j <= Pos(delta)
        invariant migrate == before + Tag(i, masters[i][..j])
      {
        migrate := migrate + [Spare(i, masters[i][j])];
        j := j + 1;
      }
      assert masters[i][..j] == Cut(masters[i], want[i]);
      assert masters[..i + 1][..i] == masters[..i] && want[..i + 1][..i] == want[..i];
    }
    assert masters[..|masters|] == masters && want[..|masters|] == want;
  }

  ghost predicate Carried(spares: seq<Spare>, takers: seq<nat>, moves: seq<Move>, finished: bool) {
    && |moves| <= |spares| && |moves| <= |takers| && moves == Planned(spares, takers, |moves|)
    && (if finished then |moves| == |takers| else |moves| == |spares| < |takers|)
  }

  /** `finished` is false when the loop indexes past the migration list. */
  method Assign(masters: seq<seq<int>>, want: seq<int>, migrate: seq<Spare>) returns (moves: seq<Move>, finished: bool)
    requires |masters| == |want|
    ensures Carried(migrate, Takers(masters, want), moves, finished)
  {
    ghost var lens := Minus(want, Have(masters));
    ghost var takers := Takers(masters, want);
    moves := [];
    finished := true;
    for i := 0 to |masters|
      invariant finished && |moves| == |Runs(lens[..i])| <= |migrate| && |moves| <= |takers|
      invariant moves == Planned(migrate, takers, |moves|)
    {
      RunAt(lens, i);
      hide Runs, Takers;
      moves, finished := Give(i, want[i] - |masters[i]|, moves, migrate, takers);
      if !finished {
        return;
      }
    }
    assert lens[..|masters|] == lens;
  }

  /** The inner loop: the next spares go to master `i`, as many as it lacks. */
  method Give(i: nat, delta: int, before: seq<Move>, migrate: seq<Spare>, ghost takers: seq<nat>)
    returns (moves: seq<Move>, finished: bool)
    requires |before| <= |migrate| && |before| + Pos(delta) <= |takers|
    requires before == Planned(migrate, takers, |before|)
    requires forall j :: |before| <= j < |before| + Pos(delta) ==> takers[j] == i
    ensures finished <==> |before| + Pos(delta) <= |migrate|
    ensures |moves| == (if finished then |before| + Pos(delta) else |migrate|) <= |takers|
    ensures moves == Planned(migrate, takers, |moves|)
  {
    moves := before;
    var idx, left := |before|, delta;
    while left > 0
      invariant idx == |moves| == |before| + Pos(delta) - Pos(left) <= |migrate| && Pos(left) <= Pos(delta)
      invariant moves == Planned(migrate, takers, idx)
    {
      if idx >= |migrate| {
        return moves, false;
      }
      moves := moves + [Move(migrate[idx].src, i, migrate[idx].slot)];
      idx := idx + 1;
      left := left - 1;
    }
    finished := true;
  }

  method Reshard(masters: seq<seq<int>>) returns (moves: seq<Move>, finished: bool)
    requires masters != []
    ensures forall want :: Level(want, SLOTS, |masters|) ==>
      Carried(Spares(masters, want), Takers(masters, want), moves, finished)
  {
    var want := Divide(SLOTS, |masters|);
    LevelNonNegative(want, SLOTS, |masters|);
    var migrate := Collect(masters, want);
    moves, finished := Assign(masters, want, migrate);
    hide Carried, Spares, Takers;
    forall other | Level(other, SLOTS, |masters|)
      ensures other == want
    {
      LevelUnique(other, want, SLOTS, |masters|);
    }
  }

  lemma {:induction false} RunAt(lens: seq<int>, i: nat)
    requires i < |lens|
    ensures |Runs(lens[..i + 1])| == |Runs(lens[..i])| + Pos(lens[i]) <= |Runs(lens)|
    ensures forall j :: |Runs(lens[..i])| <= j < |Runs(lens[..i + 1])| ==> Runs(lens)[j] == i
  {
    RunsPrefix(lens, i + 1);
    assert lens[..i + 1][..i] == lens[..i];
    var here := Runs(lens[..i + 1]);
    forall j | |Runs(lens[..i])| <= j < |here|
      ensures Runs(lens)[j] == i
    {
      assert here[j] == i;
    }
  }

  lemma {:induction false} RunsPrefix(lens: seq<int>, k: nat)
    requires k <= |lens|
    ensures Runs(lens[..k]) <= Runs(lens)
    decreases |lens|
  {
    if k < |lens| {
      var n := |lens| - 1;
      RunsPrefix(lens[..n], k);
      assert lens[..n][..k] == lens[..k];
    } else {
      assert lens[..k] == lens;
    }
  }
}
