/**
 Why connections keep requests in order: the pipes of proxy/proto/pipe.go hand each backend the
 requests of its connection in the order they were pushed, so whatever order the backends run them
 in is one that `Sharding` speaks of.
 */
module Backends {
  import opened Common
  import opened Resp
  import opened Commands
  import opened Sharding
  import opened Merging
  import opened Pipeline
  import NodePipe

  ghost predicate Rising(ms: seq<nat>) { forall i, j :: 0 <= i < j < |ms| ==> ms[i] < ms[j] }

  // ---------------------------------------------------------------- one pipe

  /** Accepted messages are pushed ones; pushed in rising order they are accepted in rising order. */
  ghost predicate AcceptsInOrder(s: NodePipe.State) {
    (forall m :: m in s.accepted ==> m in s.pushed) && (Rising(s.pushed) ==> Rising(s.accepted))
  }

  lemma {:induction false} StepAccepts(sup: NodePipe.Supported, s: NodePipe.State, e: NodePipe.Event)
    requires AcceptsInOrder(s) && NodePipe.Next(sup, s, e).Some?
    ensures AcceptsInOrder(NodePipe.Next(sup, s, e).value)
  {
    var t := NodePipe.Next(sup, s, e).value;
    if e.Push? {
      assert t.pushed == s.pushed + [e.m];
      if Rising(t.pushed) {
        assert s.pushed == t.pushed[..|s.pushed|];
        assert forall i :: 0 <= i < |s.pushed| ==> s.pushed[i] == t.pushed[i] < t.pushed[|s.pushed|] == e.m;
        assert forall i :: 0 <= i < |s.accepted| ==> s.accepted[i] in s.pushed;
      }
    } else {
      assert t.pushed == s.pushed && t.accepted == s.accepted;
    }
  }

  lemma {:induction false} RunAccepts(sup: NodePipe.Supported, run: seq<NodePipe.Event>)
    requires NodePipe.After(sup, run).Some?
    ensures AcceptsInOrder(NodePipe.After(sup, run).value)
  {
    hide NodePipe.Next;
    if run != [] {
      RunAccepts(sup, run[..|run| - 1]);
      StepAccepts(sup, NodePipe.After(sup, run[..|run| - 1]).value, run[|run| - 1]);
    }
  }

  /** In every run of a pipe, messages pushed in rising order are handed to the backend in rising order. */
  lemma {:induction false} WrittenInOrder(sup: NodePipe.Supported, run: seq<NodePipe.Event>)
    requires NodePipe.After(sup, run).Some? && Rising(NodePipe.After(sup, run).value.pushed)
    ensures
      var s := NodePipe.After(sup, run).value;
      Rising(s.written) && forall m :: m in s.written ==> m in s.pushed
  {
    hide NodePipe.After, NodePipe.OnePlace, NodePipe.Bounded, NodePipe.Matched, NodePipe.OwnReplies;
    RunAccepts(sup, run);
    NodePipe.EveryRun(sup, run);
    var s := NodePipe.After(sup, run).value;
    assert s.written == s.accepted[..|s.written|];
    assert forall m :: m in s.written ==> m in s.accepted;
  }

  // ---------------------------------------------------------------- many pipes

  function ConnOf(r: Routing, all: seq<Issued>, m: nat): int
    requires m < |all|
  {
    (r.conn)(Key(all[m].req))
  }

  ghost predicate Within(all: seq<Issued>, exec: seq<nat>) { forall i :: 0 <= i < |exec| ==> exec[i] < |all| }

  /** The part of an execution that went over connection `c`. */
  function Over(r: Routing, all: seq<Issued>, exec: seq<nat>, c: int): seq<nat>
    requires Within(all, exec)
  {
    if exec == [] then []
    else
      var last := exec[|exec| - 1];
      Over(r, all, exec[..|exec| - 1], c) + if ConnOf(r, all, last) == c then [last] else []
  }

  /** A run of every connection's pipe, to which its share of the requests was pushed in order. */
  type Runs = int -> seq<NodePipe.Event>

  /** Each backend has run a beginning of what its pipe handed it, in that order; across backends any order goes. */
  ghost predicate Executed(r: Routing, all: seq<Issued>, sup: NodePipe.Supported, runs: Runs, exec: seq<nat>) {
    && Within(all, exec)
    && forall c ::
         && NodePipe.After(sup, runs(c)).Some? && Rising(NodePipe.After(sup, runs(c)).value.pushed)
         && Over(r, all, exec, c) <= NodePipe.After(sup, runs(c)).value.written
  }

  /** Requests of one connection run in the order they were issued. */
  ghost predicate KeepsOrder(r: Routing, all: seq<Issued>, exec: seq<nat>)
    requires Within(all, exec)
  {
    forall i, j :: 0 <= i < j < |exec| && ConnOf(r, all, exec[i]) == ConnOf(r, all, exec[j]) ==> exec[i] < exec[j]
  }

  lemma {:induction false} OverHas(r: Routing, all: seq<Issued>, exec: seq<nat>, i: nat)
    requires Within(all, exec) && i < |exec|
    ensures exec[i] in Over(r, all, exec, ConnOf(r, all, exec[i]))
  {
    var k := |exec| - 1;
    if i < k {
      OverHas(r, all, exec[..k], i);
    }
  }

  lemma {:induction false} RisingPart(a: seq<nat>, b: seq<nat>)
    requires Rising(a + b)
    ensures Rising(a) && forall x, y :: x in a && y in b ==> x < y
  {
    var c := a + b;
    assert forall i :: 0 <= i < |a| ==> c[i] == a[i];
    assert forall j :: 0 <= j < |b| ==> c[|a| + j] == b[j];
  }

  lemma {:induction false} RisingOverKeepsOrder(r: Routing, all: seq<Issued>, exec: seq<nat>)
    requires Within(all, exec) && forall c :: Rising(Over(r, all, exec, c))
    ensures KeepsOrder(r, all, exec)
  {
    hide ConnOf;
    if exec != [] {
      var k := |exec| - 1;
      var init, last := exec[..k], exec[k];
      forall c
        ensures Rising(Over(r, all, init, c))
      {
        assert Rising(Over(r, all, exec, c));
        RisingPart(Over(r, all, init, c), if ConnOf(r, all, last) == c then [last] else []);
      }
      RisingOverKeepsOrder(r, all, init);
      forall i | 0 <= i < k && ConnOf(r, all, exec[i]) == ConnOf(r, all, last)
        ensures exec[i] < last
      {
        var c := ConnOf(r, all, last);
        assert init[i] == exec[i];
        OverHas(r, all, init, i);
        assert Rising(Over(r, all, exec, c)) && last in [last];
        RisingPart(Over(r, all, init, c), [last]);
      }
    }
  }

  lemma {:induction false} PipesKeepOrder(r: Routing, all: seq<Issued>, sup: NodePipe.Supported, runs: Runs,
      exec: seq<nat>)
    requires Executed(r, all, sup, runs, exec)
    ensures KeepsOrder(r, all, exec)
  {
    hide NodePipe.After, Over, KeepsOrder;
    forall c
      ensures Rising(Over(r, all, exec, c))
    {
      WrittenInOrder(sup, runs(c));
      var part, written := Over(r, all, exec, c), NodePipe.After(sup, runs(c)).value.written;
      assert part <= written && forall i :: 0 <= i < |part| ==> part[i] == written[i];
    }
    RisingOverKeepsOrder(r, all, exec);
  }

  // ---------------------------------------------------------------- executions

  ghost function ExecNodes(other: Semantics, r: Routing, all: seq<Issued>, exec: seq<nat>, nodes: Nodes): Nodes
    requires Within(all, exec)
    decreases |exec|
  {
    if exec == [] then nodes
    else
      var req := all[exec[0]].req;
      var n := NodeOf(r, Key(req));
      ExecNodes(other, r, all, exec[1..], nodes[n := Next(other, At(nodes, n), req)])
  }

  ghost function ExecReplies(other: Semantics, r: Routing, all: seq<Issued>, exec: seq<nat>,
      nodes: Nodes): map<nat, Resp>
    requires Within(all, exec)
    decreases |exec|
  {
    if exec == [] then map[]
    else
      var req := all[exec[0]].req;
      var n := NodeOf(r, Key(req));
      ExecReplies(other, r, all, exec[1..], nodes[n := Next(other, At(nodes, n), req)])
        [exec[0] := Reply(other, At(nodes, n), req)]
  }

  ghost predicate Has(todo: seq<Issued>, m: nat) { exists p :: 0 <= p < |todo| && todo[p].id == m }

  /** Requests of `all`, in order. */
  ghost predicate Part(all: seq<Issued>, todo: seq<Issued>) {
    && (forall p :: 0 <= p < |todo| ==> todo[p].id < |all| && todo[p] == all[todo[p].id])
    && (forall p, q :: 0 <= p < q < |todo| ==> todo[p].id < todo[q].id)
  }

  /** `todo` is such a part, and exactly what `exec` names. */
  ghost predicate Outstanding(all: seq<Issued>, todo: seq<Issued>, exec: seq<nat>) {
    Within(all, exec) && Distinct(exec) && Part(all, todo) && forall m :: Has(todo, m) <==> m in exec
  }

  lemma {:induction false} HasWithout(todo: seq<Issued>, p: nat, m: nat)
    requires p < |todo| && (forall q :: 0 <= q < |todo| && q != p ==> todo[q].id != todo[p].id)
    ensures Has(Without(todo, p), m) <==> Has(todo, m) && m != todo[p].id
  {
    var rest := Without(todo, p);
    assert forall q :: 0 <= q < |rest| ==> rest[q] == todo[if q < p then q else q + 1];
    if Has(todo, m) && m != todo[p].id {
      var q :| 0 <= q < |todo| && todo[q].id == m;
      assert rest[if q < p then q else q - 1] == todo[q];
    }
  }

  lemma PartAt(all: seq<Issued>, todo: seq<Issued>, p: nat)
    requires Part(all, todo) && p < |todo|
    ensures todo[p].id < |all| && todo[p] == all[todo[p].id]
  {
  }

  lemma {:induction false} PartWithout(all: seq<Issued>, todo: seq<Issued>, p: nat)
    requires Part(all, todo) && p < |todo|
    ensures Part(all, Without(todo, p))
  {
    var rest := Without(todo, p);
    assert forall q :: 0 <= q < |rest| ==> rest[q] == todo[if q < p then q else q + 1];
  }

  lemma {:induction false} OutstandingNext(all: seq<Issued>, todo: seq<Issued>, exec: seq<nat>, p: nat)
    requires Outstanding(all, todo, exec) && exec != [] && p < |todo| && todo[p].id == exec[0]
    ensures Outstanding(all, Without(todo, p), exec[1..])
  {
    hide Has;
    assert forall q :: 0 <= q < |todo| && q != p ==> todo[q].id != todo[p].id;
    PartWithout(all, todo, p);
    hide Part;
    var later := exec[1..];
    assert exec == [exec[0]] + later && exec[0] !in later;
    forall m
      ensures Has(Without(todo, p), m) <==> m in later
    {
      HasWithout(todo, p, m);
    }
  }

  lemma {:induction false} FirstIsOldest(r: Routing, all: seq<Issued>, todo: seq<Issued>, exec: seq<nat>, p: nat,
      q: nat)
    requires Outstanding(all, todo, exec) && KeepsOrder(r, all, exec) && exec != []
    requires q < p < |todo| && todo[p].id == exec[0]
    ensures (r.conn)(Key(todo[q].req)) != (r.conn)(Key(todo[p].req))
  {
    hide Key;
    var y := todo[q].id;
    assert Has(todo, y);
    var j :| 0 <= j < |exec| && exec[j] == y;
    assert ConnOf(r, all, exec[0]) == (r.conn)(Key(todo[p].req)) &&
      ConnOf(r, all, exec[j]) == (r.conn)(Key(todo[q].req));
  }

  /** An execution that keeps connections in order is one the sharding theorem speaks of. */
  lemma {:induction false} ExecutionIsFifo(other: Semantics, r: Routing, all: seq<Issued>, todo: seq<Issued>,
      exec: seq<nat>, nodes: Nodes)
    returns (order: seq<nat>)
    requires Outstanding(all, todo, exec) && KeepsOrder(r, all, exec)
    ensures Fifo(r, todo, order)
    ensures NodesAfter(other, r, todo, order, nodes) == ExecNodes(other, r, all, exec, nodes)
    ensures NodeReplies(other, r, todo, order, nodes) == ExecReplies(other, r, all, exec, nodes)
    decreases |exec|
  {
    hide Key, Next, Reply, Part, Distinct;
    if exec == [] {
      order := [];
      assert todo != [] ==> Has(todo, todo[0].id);
    } else {
      assert exec[0] in exec && Has(todo, exec[0]);
      var p :| 0 <= p < |todo| && todo[p].id == exec[0];
      forall q | 0 <= q < p
        ensures (r.conn)(Key(todo[q].req)) != (r.conn)(Key(todo[p].req))
      {
        FirstIsOldest(r, all, todo, exec, p, q);
      }
      OutstandingNext(all, todo, exec, p);
      PartAt(all, todo, p);
      var req := todo[p].req;
      var n := NodeOf(r, Key(req));
      var rest := ExecutionIsFifo(other, r, all, Without(todo, p), exec[1..],
        nodes[n := Next(other, At(nodes, n), req)]);
      order := [p] + rest;
      assert order[1..] == rest;
    }
  }

  /**
   Pipes, then backends: if every request of a pipeline was pushed to the pipe of its connection
   in order and every one was run, in whatever order across backends, the client gets one
   server's bytes and the nodes together end with its data.
   */
  lemma {:induction false} PipesLikeOneServer(other: Semantics, r: Routing, cmds: seq<Resp>, sup: NodePipe.Supported,
      runs: Runs, exec: seq<nat>, nodes: Nodes, st: Store)
    requires AllLegal(cmds) && Shards(r, nodes, st) && Executed(r, IssueAll(cmds, 0), sup, runs, exec)
    requires Distinct(exec) && forall m :: 0 <= m < |IssueAll(cmds, 0)| ==> m in exec
    ensures
      var all := IssueAll(cmds, 0);
      && Written(cmds, ExecReplies(other, r, all, exec, nodes), 0) == ServerWrites(other, cmds, st)
      && Shards(r, ExecNodes(other, r, all, exec, nodes), ServerEnds(other, cmds, st))
  {
    hide AllLegal, Shards, IssueAll, Written, ServerWrites, ServerEnds, ExecReplies, ExecNodes, NodesAfter,
         NodeReplies, Fifo, Over, KeepsOrder;
    var all := IssueAll(cmds, 0);
    IdsInOrder(cmds, 0);
    PipesKeepOrder(r, all, sup, runs, exec);
    AllOutstanding(all, exec);
    var order := ExecutionIsFifo(other, r, all, all, exec, nodes);
    ShardingIsTransparent(other, r, cmds, order, nodes, st);
  }

  lemma {:induction false} AllOutstanding(all: seq<Issued>, exec: seq<nat>)
    requires Within(all, exec) && Distinct(exec) && (forall i :: 0 <= i < |all| ==> all[i].id == i)
    requires forall m :: 0 <= m < |all| ==> m in exec
    ensures Outstanding(all, all, exec)
  {
    forall m: nat
      ensures Has(all, m) <==> m in exec
    {
      if m < |all| {
        assert all[m].id == m;
      }
    }
  }
}
