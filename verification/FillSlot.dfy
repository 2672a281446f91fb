/**
 Handing out the slots nobody owns: `fillSlot` of enri/cluster.go.
 */
module FillSlot {
  import opened Common
  import opened Slots
  import opened Reshard
  import opened ReshardPlans

  /** All lists one after another. */
  function Flat(lists: seq<seq<int>>): seq<int> {
    if lists == [] then [] else Flat(lists[..|lists| - 1]) + lists[|lists| - 1]
  }

  /** The slots below `k` that are not in `owned`, in order. */
  function Missing(owned: seq<int>, k: nat): seq<int> {
    if k == 0 then []
    else Missing(owned, k - 1) + if k - 1 in owned then [] else [k - 1]
  }

  ghost predicate InBounds(owned: seq<int>) { forall s :: s in owned ==> 0 <= s < SLOTS }

  // ---------------------------------------------------------------- the operation

  /** `ok` is false for the index panic on a slot outside the table. */
  method Mark(masters: seq<seq<int>>) returns (ok: bool, slots: array<bool>, count: nat)
    ensures ok <==> InBounds(Flat(masters))
    ensures fresh(slots) && slots.Length == SLOTS
    ensures ok ==> count == |Flat(masters)| && forall s :: 0 <= s < SLOTS ==> (slots[s] <==> s in Flat(masters))
  {
    slots := new bool[SLOTS](_ => false);
    count := 0;
    for i := 0 to |masters|
      invariant count == |Flat(masters[..i])| && InBounds(Flat(masters[..i]))
      invariant forall s :: 0 <= s < SLOTS ==> (slots[s] <==> s in Flat(masters[..i]))
    {
      ghost var before := Flat(masters[..i]);
      FlatStep(masters, i);
      for j := 0 to |masters[i]|
        invariant count == |before| + j && InBounds(masters[i][..j])
        invariant forall s :: 0 <= s < SLOTS ==> (slots[s] <==> s in before || s in masters[i][..j])
      {
        FlatMember(masters, i);
        assert masters[i][j] in masters[i];
        if masters[i][j] < 0 || masters[i][j] >= SLOTS {
          return false, slots, count;
        }
        slots[masters[i][j]] := true;
        count := count + 1;
        assert masters[i][..j + 1] == masters[i][..j] + [masters[i][j]];
      }
      assert masters[i][..|masters[i]|] == masters[i];
    }
    assert masters[..|masters|] == masters;
    ok := true;
  }

  lemma {:induction false} FlatStep(lists: seq<seq<int>>, i: nat)
    requires i < |lists|
    ensures Flat(lists[..i + 1]) == Flat(lists[..i]) + lists[i]
    ensures forall s :: s in lists[i] ==> s in Flat(lists)
  {
    assert lists[..i + 1][..i] == lists[..i];
    FlatMember(lists, i);
  }

  lemma {:induction false} FlatMember(lists: seq<seq<int>>, i: nat)
    requires i < |lists|
    ensures forall s :: s in lists[i] ==> s in Flat(lists)
  {
    if i < |lists| - 1 {
      FlatMember(lists[..|lists| - 1], i);
    }
  }

  /** What `fillSlot` hands out: the first missing slots, as many as the count leaves, level. */
  ghost predicate Filled(masters: seq<seq<int>>, added: seq<seq<int>>) {
    var owned := Flat(masters);
    && |added| == |masters|
    && Pos(SLOTS - |owned|) <= |Missing(owned, SLOTS)|
    && Flat(added) == Missing(owned, SLOTS)[..Pos(SLOTS - |owned|)]
    && (SLOTS >= |owned| ==> Level(Have(added), SLOTS - |owned|, |masters|))
  }

  /** One master's turn: collect missing slots from `j` on until there are `want`. */
  method Take(slots: array<bool>, ghost owned: seq<int>, want: int, j: nat) returns (add: seq<int>, next: nat)
    requires slots.Length == SLOTS && j <= SLOTS && forall s :: 0 <= s < SLOTS ==> (slots[s] <==> s in owned)
    requires want > 0 ==> |Missing(owned, j)| + want <= |Missing(owned, SLOTS)|
    ensures j <= next <= SLOTS
    ensures |add| == Pos(want) && (want > 0 ==> Missing(owned, next) == Missing(owned, j) + add)
  {
    add := [];
    next := j;
    while next < SLOTS
      invariant j <= next <= SLOTS && (want > 0 ==> |add| < want)
      invariant Missing(owned, next) == Missing(owned, j) + add
    {
      if !slots[next] {
        add := add + [next];
      }
      if |add| == want && |add| != 0 {
        next := next + 1;
        return;
      }
      next := next + 1;
    }
    add := [];
  }

  ghost predicate Shares(dispatch: seq<int>, n: int, m: nat) {
    |dispatch| == m && if n >= 0 then Level(dispatch, n, m) else forall k :: 0 <= k < m ==> dispatch[k] <= 0
  }

  /** The loop over the masters. */
  method Deal(slots: array<bool>, ghost owned: seq<int>, dispatch: seq<int>, ghost n: int)
      returns (added: seq<seq<int>>)
    requires slots.Length == SLOTS && forall s :: 0 <= s < SLOTS ==> (slots[s] <==> s in owned)
    requires Shares(dispatch, n, |dispatch|) && n <= |Missing(owned, SLOTS)|
    ensures |added| == |dispatch| && forall k :: 0 <= k < |added| ==> |added[k]| == Pos(dispatch[k])
    ensures Flat(added) <= Missing(owned, SLOTS)
  {
    assert Missing(owned, 0) == [];
    hide Shares, Missing;
    var j := 0;
    added := [];
    for i := 0 to |dispatch|
      invariant j <= SLOTS && |added| == i
      invariant forall k :: 0 <= k < i ==> |added[k]| == Pos(dispatch[k])
      invariant Flat(added) <= Missing(owned, SLOTS)
      invariant (i < |dispatch| && dispatch[i] > 0) ==> Flat(added) == Missing(owned, j)
    {
      if dispatch[i] > 0 {
        RoomLeft(dispatch, added, n, i);
      }
      var add: seq<int>;
      add, j := Take(slots, owned, dispatch[i], j);
      MissingPrefix(owned, j, SLOTS);
      Descends(dispatch, n, i);
      assert (added + [add])[..i] == added;
      added := added + [add];
    }
  }

  /** `None` stands for the index panic on a slot outside the table. */
  method FillSlot(masters: seq<seq<int>>) returns (r: Option<seq<seq<int>>>)
    requires masters != []
    ensures r.Some? <==> InBounds(Flat(masters))
    ensures r.Some? ==> Filled(masters, r.value)
  {
    ghost var owned := Flat(masters);
    var ok, slots, count := Mark(masters);
    if !ok {
      return None;
    }
    var dispatch := Divide(SLOTS - count, |masters|);
    MissingRoom(owned);
    hide Flat, Missing;
    var added := Deal(slots, owned, dispatch, SLOTS - count);
    DealtAll(dispatch, added, SLOTS - count);
    r := Some(added);
  }

  /** Once a share is empty all later ones are. */
  lemma Descends(dispatch: seq<int>, n: int, i: nat)
    requires Shares(dispatch, n, |dispatch|)
    ensures i + 1 < |dispatch| && dispatch[i + 1] > 0 ==> dispatch[i] > 0
  {
  }

  lemma {:induction false} MissingPrefix(owned: seq<int>, j: nat, k: nat)
    requires j <= k
    ensures Missing(owned, j) <= Missing(owned, k)
    decreases k
  {
    if j < k {
      MissingPrefix(owned, j, k - 1);
    }
  }

  lemma {:induction false} FlatLength(lists: seq<seq<int>>)
    ensures |Flat(lists)| == Sum(Have(lists))
  {
    if lists != [] {
      var k := |lists| - 1;
      FlatLength(lists[..k]);
      assert Have(lists)[..k] == Have(lists[..k]);
    }
  }

  lemma {:induction false} SumPrefix(s: seq<int>, k: nat)
    requires k <= |s| && forall i :: 0 <= i < |s| ==> s[i] >= 0
    ensures 0 <= Sum(s[..k]) <= Sum(s)
    decreases |s|
  {
    if k < |s| {
      SumPrefix(s[..|s| - 1], k);
      assert s[..|s| - 1][..k] == s[..k];
    } else if k > 0 {
      SumPrefix(s[..k - 1], k - 1);
      assert s[..k] == s;
      assert s[..k - 1][..k - 1] == s[..k - 1];
    }
  }

  lemma {:induction false} RoomLeft(dispatch: seq<int>, added: seq<seq<int>>, n: int, i: nat)
    requires i < |dispatch| && dispatch[i] > 0 && |added| == i && Shares(dispatch, n, |dispatch|)
    requires forall k :: 0 <= k < i ==> |added[k]| == Pos(dispatch[k])
    ensures |Flat(added)| + dispatch[i] <= n
  {
    LevelNonNegative(dispatch, n, |dispatch|);
    FlatLength(added);
    assert Have(added) == dispatch[..i];
    assert dispatch[..i + 1][..i] == dispatch[..i];
    SumPrefix(dispatch, i + 1);
  }

  lemma {:induction false} DealtAll(dispatch: seq<int>, added: seq<seq<int>>, n: int)
    requires |dispatch| == |added| && Shares(dispatch, n, |dispatch|)
    requires forall k :: 0 <= k < |added| ==> |added[k]| == Pos(dispatch[k])
    ensures |Flat(added)| == Pos(n) && (n >= 0 ==> Level(Have(added), n, |dispatch|))
  {
    FlatLength(added);
    if n >= 0 {
      LevelNonNegative(dispatch, n, |dispatch|);
      assert Have(added) == dispatch;
    } else {
      ZeroSum(Have(added));
    }
  }

  // ---------------------------------------------------------------- how many are missing

  ghost function Below(owned: seq<int>, k: nat): set<int> { set s | s in owned && 0 <= s < k }

  lemma {:induction false} MissingCount(owned: seq<int>, k: nat)
    ensures |Missing(owned, k)| + |Below(owned, k)| == k
  {
    if k == 0 {
      assert Below(owned, k) == {};
    } else {
      MissingCount(owned, k - 1);
      if k - 1 in owned {
        assert Below(owned, k) == Below(owned, k - 1) + {k - 1};
      } else {
        assert Below(owned, k) == Below(owned, k - 1);
      }
    }
  }

  lemma {:induction false} MissingMembers(owned: seq<int>, k: nat)
    ensures forall s :: s in Missing(owned, k) <==> 0 <= s < k && s !in owned
    ensures Distinct(Missing(owned, k))
  {
    if k > 0 {
      MissingMembers(owned, k - 1);
    }
  }

  lemma {:induction false} ElementsSize(s: seq<int>)
    ensures |Elements(s)| <= |s|
    ensures |Elements(s)| == |s| ==> Distinct(s)
  {
    if s == [] {
      assert Elements(s) == {};
    } else {
      var k := |s| - 1;
      ElementsSize(s[..k]);
      assert s == s[..k] + [s[k]];
      if s[k] in s[..k] {
        assert Elements(s) == Elements(s[..k]);
      } else {
        assert Elements(s) == Elements(s[..k]) + {s[k]};
      }
    }
  }

  /** At least the slots the count leaves are missing; exactly those if none is listed twice. */
  lemma {:induction false} MissingRoom(owned: seq<int>)
    requires InBounds(owned)
    ensures SLOTS - |owned| <= |Missing(owned, SLOTS)|
    ensures SLOTS - |owned| == |Missing(owned, SLOTS)| <==> Distinct(owned)
  {
    MissingCount(owned, SLOTS);
    ElementsSize(owned);
    assert Elements(owned) == Below(owned, SLOTS);
    if Distinct(owned) {
      DistinctSize(owned);
    }
  }

  /** No slot of another master is handed out, and none twice. */
  lemma {:induction false} FillAddsMissing(masters: seq<seq<int>>, added: seq<seq<int>>)
    requires Filled(masters, added)
    ensures Distinct(Flat(added))
    ensures forall s :: s in Flat(added) ==> 0 <= s < SLOTS && s !in Flat(masters)
  {
    var owned, given := Flat(masters), Flat(added);
    MissingMembers(owned, SLOTS);
    var missing := Missing(owned, SLOTS);
    hide Missing, Flat;
    forall s | s in given
      ensures 0 <= s < SLOTS && s !in owned
    {
      assert s in missing;
    }
  }

  ghost predicate Covers(slots: seq<int>) { forall s :: 0 <= s < SLOTS ==> s in slots }

  /** Every slot ends up owned exactly when no slot was listed twice, or none was missing. */
  lemma {:induction false} FillCoversExactly(masters: seq<seq<int>>, added: seq<seq<int>>)
    requires Filled(masters, added) && InBounds(Flat(masters))
    ensures Covers(Flat(masters) + Flat(added)) <==> Distinct(Flat(masters)) || Covers(Flat(masters))
  {
    var owned, given := Flat(masters), Flat(added);
    var missing := Missing(owned, SLOTS);
    MissingRoom(owned);
    MissingMembers(owned, SLOTS);
    hide Missing, Flat;
    if Distinct(owned) {
      assert given == missing;
      forall s | 0 <= s < SLOTS
        ensures s in owned + given
      {
        assert s !in owned ==> s in missing;
      }
    } else if Covers(owned) {
      assert forall s :: s in owned ==> s in owned + given;
    } else {
      FirstLeftOut(owned, given, missing);
    }
  }

  lemma {:induction false} FirstLeftOut(owned: seq<int>, given: seq<int>, missing: seq<int>)
    requires given < missing && Distinct(missing)
    requires forall s :: s in missing <==> 0 <= s < SLOTS && s !in owned
    ensures !Covers(owned + given)
  {
    var s := missing[|given|];
    assert s in missing;
    assert 0 <= s < SLOTS && s !in owned + given;
  }

  /** One master that lists slot 0 twice: the last slot is left to nobody. */
  lemma {:induction false} TwiceListedLeavesAHole(added: seq<seq<int>>)
    requires Filled([[0, 0]], added)
    ensures 16383 !in Flat([[0, 0]]) && 16383 !in Flat(added)
  {
    var owned := Flat([[0, 0]]);
    assert [[0, 0]][..0] == [];
    assert owned == [0, 0];
    var given, missing := Flat(added), Missing(owned, SLOTS);
    assert missing == Missing(owned, SLOTS - 1) + [16383];
    MissingMembers(owned, SLOTS - 1);
    MissingCount(owned, SLOTS - 1);
    assert Below(owned, SLOTS - 1) == {0};
    hide Missing, Flat;
    assert given == Missing(owned, SLOTS - 1);
  }
}
