/** Small types and facts shared by the modules. */
module Common {
  datatype Option<+T> = None | Some(value: T)

  /** The part a node plays in its cluster. */
  datatype Role = Master | Slave

  /** Slots of a node. Both ends belong to the range; it is empty when `end < begin`. */
  datatype Range = Range(begin: int, end: int)

  datatype Node = Node(name: string, port: int, role: Role, runId: string, slaveOf: string, slots: seq<Range>)

  /** Four nodes on two hosts. */
  datatype Chunk = Chunk(nodes: seq<Node>)

  /** The nodes of all chunks in order. */
  function NodesOf(plan: seq<Chunk>): seq<Node> {
    if plan == [] then [] else NodesOf(plan[..|plan| - 1]) + plan[|plan| - 1].nodes
  }

  ghost predicate Distinct<T>(s: seq<T>) {
    forall i, j :: 0 <= i < j < |s| ==> s[i] != s[j]
  }

  /** `x` put in at position `p`. */
  function Inserted<T(!new)>(s: seq<T>, p: nat, x: T): (r: seq<T>)
    requires p <= |s|
    ensures |r| == |s| + 1
    ensures forall y :: y in r <==> y in s || y == x
    ensures forall i :: 0 <= i < |r| ==> r[i] == if i < p then s[i] else if i == p then x else s[i - 1]
  {
    s[..p] + [x] + s[p..]
  }

  // ---------------------------------------------------------------- sums

  function Sum(s: seq<int>): int {
    if s == [] then 0 else Sum(s[..|s| - 1]) + s[|s| - 1]
  }

  lemma {:induction false} SumSnoc(s: seq<int>, x: int)
    ensures Sum(s + [x]) == Sum(s) + x
  {
    assert (s + [x])[..|s|] == s;
  }

  lemma {:induction false} SumUpdate(s: seq<int>, i: nat, v: int)
    requires i < |s|
    ensures Sum(s[i := v]) == Sum(s) - s[i] + v
  {
    var k := |s| - 1;
    if i < k {
      SumUpdate(s[..k], i, v);
      assert s[i := v][..k] == s[..k][i := v];
    } else {
      assert s[i := v][..k] == s[..k];
    }
  }

  lemma {:induction false} SumNonNegative(s: seq<int>)
    requires forall i :: 0 <= i < |s| ==> s[i] >= 0
    ensures Sum(s) >= 0
    ensures forall i :: 0 <= i < |s| ==> s[i] <= Sum(s)
    ensures Sum(s) == 0 <==> forall i :: 0 <= i < |s| ==> s[i] == 0
  {
    if s != [] {
      var init := s[..|s| - 1];
      SumNonNegative(init);
      assert forall i :: 0 <= i < |init| ==> init[i] == s[i];
    }
  }
}
