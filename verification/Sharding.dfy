/**
 Why splitting a pipeline of commands over many nodes is invisible to the client: the
 requests of proxy/proto/redis/proxy_conn.go, routed by key (proxy/forwarder.go) and run in
 any order that keeps each connection first-in first-out (proxy/proto/pipe.go).
 */
module Sharding {
  import opened Common
  import opened Decimal
  import opened Resp
  import opened Commands

  type Store = map<string, string>

  /** What a node does with a request it finds under one key: the new value and the reply. */
  type Semantics = (Resp, Option<string>) -> (Option<string>, Resp)

  function Lookup(st: Store, k: string): Option<string> {
    if k in st then Some(st[k]) else None
  }

  function Put(st: Store, k: string, v: Option<string>): Store {
    if v.Some? then st[k := v.value] else st - {k}
  }

  // ---------------------------------------------------------------- nodes

  const OK_REPLY: Resp := Resp('+', "OK", [])

  function IntReply(n: int): Resp { Resp(':', Itoa(n), []) }

  function ValueReply(v: Option<string>): Resp {
    if v.None? then Resp('$', "", []) else Resp('$', Itoa(|v.value|) + CRLF + v.value, [])
  }

  function One(present: bool): int { if present then 1 else 0 }

  /** A node's answer to a single-key request; commands that are never split are arbitrary. */
  function Answer(other: Semantics, req: Resp, cell: Option<string>): (Option<string>, Resp) {
    if |req.elems| == 2 && req.elems[0].data == GET then (cell, ValueReply(cell))
    else if |req.elems| == 3 && req.elems[0].data == MSET then (Some(Payload(req.elems[2])), OK_REPLY)
    else if |req.elems| == 2 && req.elems[0].data == DEL then (None, IntReply(One(cell.Some?)))
    else if |req.elems| == 2 && req.elems[0].data == EXISTS then (cell, IntReply(One(cell.Some?)))
    else other(req, cell)
  }

  /** A store after a request. */
  function Next(other: Semantics, st: Store, req: Resp): Store {
    Put(st, Key(req), Answer(other, req, Lookup(st, Key(req))).0)
  }

  function Reply(other: Semantics, st: Store, req: Resp): Resp {
    Answer(other, req, Lookup(st, Key(req))).1
  }

  /** Requests on different keys do not see each other. */
  lemma {:induction false} Commute(other: Semantics, st: Store, a: Resp, b: Resp)
    requires Key(a) != Key(b)
    ensures Next(other, Next(other, st, a), b) == Next(other, Next(other, st, b), a)
    ensures Reply(other, Next(other, st, a), b) == Reply(other, st, b)
  {
    hide Answer, Key;
    assert Lookup(Next(other, st, a), Key(b)) == Lookup(st, Key(b));
    assert Lookup(Next(other, st, b), Key(a)) == Lookup(st, Key(a));
  }

  // ---------------------------------------------------------------- one store, one order

  /** A request with the number it was issued under. */
  datatype Issued = Issued(id: nat, req: Resp)

  function RunStore(other: Semantics, todo: seq<Issued>, st: Store): Store {
    if todo == [] then st else RunStore(other, todo[1..], Next(other, st, todo[0].req))
  }

  function RunReplies(other: Semantics, todo: seq<Issued>, st: Store): map<nat, Resp> {
    if todo == [] then map[]
    else RunReplies(other, todo[1..], Next(other, st, todo[0].req))[todo[0].id := Reply(other, st, todo[0].req)]
  }

  ghost predicate DistinctIds(todo: seq<Issued>) {
    forall i, j :: 0 <= i < j < |todo| ==> todo[i].id != todo[j].id
  }

  function Without(todo: seq<Issued>, p: nat): (rest: seq<Issued>)
    requires p < |todo|
    ensures |rest| == |todo| - 1
  {
    todo[..p] + todo[p + 1..]
  }

  /** A request may be moved to the front past requests on other keys. */
  lemma {:induction false} MoveToFront(other: Semantics, todo: seq<Issued>, p: nat, st: Store)
    requires p < |todo| && DistinctIds(todo) && forall q :: 0 <= q < p ==> Key(todo[q].req) != Key(todo[p].req)
    ensures RunStore(other, todo, st) == RunStore(other, [todo[p]] + Without(todo, p), st)
    ensures RunReplies(other, todo, st) == RunReplies(other, [todo[p]] + Without(todo, p), st)
  {
    hide Answer, Key, Next, Reply, RunStore, RunReplies;
    if p == 0 {
      assert [todo[p]] + Without(todo, p) == todo;
    } else {
      var x, y, tail := todo[0], todo[p], todo[1..];
      var st1 := Next(other, st, x.req);
      MoveToFront(other, tail, p - 1, st1);
      Commute(other, st, x.req, y.req);
      Commute(other, st, y.req, x.req);
      var rest := Without(tail, p - 1);
      assert Without(todo, p) == [x] + rest;
      FirstTwo(other, y, x, rest, st);
      FirstTwo(other, x, y, rest, st);
      assert [x] + tail == todo;
      RunCons(other, x, tail, st);
      RunCons(other, x, [y] + rest, st);
      assert [x] + ([y] + rest) == [x, y] + rest && [y] + ([x] + rest) == [y, x] + rest;
    }
  }

  lemma {:induction false} RunCons(other: Semantics, x: Issued, tail: seq<Issued>, st: Store)
    ensures RunStore(other, [x] + tail, st) == RunStore(other, tail, Next(other, st, x.req))
    ensures RunReplies(other, [x] + tail, st)
         == RunReplies(other, tail, Next(other, st, x.req))[x.id := Reply(other, st, x.req)]
  {
    assert ([x] + tail)[1..] == tail;
  }

  lemma {:induction false} FirstTwo(other: Semantics, x: Issued, y: Issued, rest: seq<Issued>, st: Store)
    ensures
      var st1 := Next(other, st, x.req);
      var st2 := Next(other, st1, y.req);
      && RunStore(other, [x, y] + rest, st) == RunStore(other, rest, st2)
      && RunReplies(other, [x, y] + rest, st)
         == RunReplies(other, rest, st2)[y.id := Reply(other, st1, y.req)][x.id := Reply(other, st, x.req)]
  {
    assert [x, y] + rest == [x] + ([y] + rest);
    RunCons(other, x, [y] + rest, st);
    RunCons(other, y, rest, Next(other, st, x.req));
  }

  // ---------------------------------------------------------------- many nodes, any order

  /** Where keys go: the connection they travel on and the node at its end. */
  datatype Routing = Routing(conn: string -> int, node: int -> int)

  function NodeOf(r: Routing, k: string): int { (r.node)((r.conn)(k)) }

  type Nodes = map<int, Store>

  function At(nodes: Nodes, n: int): Store { if n in nodes then nodes[n] else map[] }

  /** The nodes' stores put together are `st`, every key on the node it is routed to. */
  ghost predicate Shards(r: Routing, nodes: Nodes, st: Store) {
    && (forall n, k :: n in nodes && k in nodes[n] ==> NodeOf(r, k) == n)
    && (forall k :: Lookup(At(nodes, NodeOf(r, k)), k) == Lookup(st, k))
  }

  /**
   An order of execution: at every point some outstanding request runs that is the oldest
   one outstanding on its connection.
   */
  ghost predicate Fifo(r: Routing, todo: seq<Issued>, order: seq<nat>) {
    if todo == [] then order == []
    else
      && order != [] && order[0] < |todo|
      && (forall q :: 0 <= q < order[0] ==> (r.conn)(Key(todo[q].req)) != (r.conn)(Key(todo[order[0]].req)))
      && Fifo(r, Without(todo, order[0]), order[1..])
  }

  ghost function NodesAfter(other: Semantics, r: Routing, todo: seq<Issued>, order: seq<nat>, nodes: Nodes): Nodes
    requires Fifo(r, todo, order)
    decreases |todo|
  {
    if todo == [] then nodes
    else
      var req := todo[order[0]].req;
      var n := NodeOf(r, Key(req));
      NodesAfter(other, r, Without(todo, order[0]), order[1..], nodes[n := Next(other, At(nodes, n), req)])
  }

  ghost function NodeReplies(other: Semantics, r: Routing, todo: seq<Issued>, order: seq<nat>,
      nodes: Nodes): map<nat, Resp>
    requires Fifo(r, todo, order)
    decreases |todo|
  {
    if todo == [] then map[]
    else
      var x := todo[order[0]];
      var n := NodeOf(r, Key(x.req));
      NodeReplies(other, r, Without(todo, order[0]), order[1..], nodes[n := Next(other, At(nodes, n), x.req)])
        [x.id := Reply(other, At(nodes, n), x.req)]
  }

  /** One request on its node is the same request on the whole store. */
  lemma {:induction false} NodeStep(other: Semantics, r: Routing, nodes: Nodes, st: Store, req: Resp)
    requires Shards(r, nodes, st)
    ensures
      var n := NodeOf(r, Key(req));
      && Shards(r, nodes[n := Next(other, At(nodes, n), req)], Next(other, st, req))
      && Reply(other, At(nodes, n), req) == Reply(other, st, req)
  {
    hide Answer, Key;
    var n := NodeOf(r, Key(req));
    assert Lookup(At(nodes, n), Key(req)) == Lookup(st, Key(req));
    var nodes' := nodes[n := Next(other, At(nodes, n), req)];
    var st' := Next(other, st, req);
    forall k
      ensures Lookup(At(nodes', NodeOf(r, k)), k) == Lookup(st', k)
    {
      assert Lookup(At(nodes, NodeOf(r, k)), k) == Lookup(st, k);
    }
  }

  lemma {:induction false} WithoutKeepsIds(todo: seq<Issued>, p: nat)
    requires p < |todo| && DistinctIds(todo)
    ensures DistinctIds(Without(todo, p))
  {
    var rest := Without(todo, p);
    forall i, j | 0 <= i < j < |rest|
      ensures rest[i].id != rest[j].id
    {
      assert rest[i] == todo[if i < p then i else i + 1] && rest[j] == todo[if j < p then j else j + 1];
    }
  }

  /** Whatever the order, the replies and the stores are those of running the requests one by one. */
  lemma {:induction false} AnyOrder(other: Semantics, r: Routing, todo: seq<Issued>, order: seq<nat>, nodes: Nodes,
      st: Store)
    requires Fifo(r, todo, order) && DistinctIds(todo) && Shards(r, nodes, st)
    ensures NodeReplies(other, r, todo, order, nodes) == RunReplies(other, todo, st)
    ensures Shards(r, NodesAfter(other, r, todo, order, nodes), RunStore(other, todo, st))
    decreases |todo|
  {
    hide Answer, Key, Shards, Next, Reply;
    if todo != [] {
      var p := order[0];
      var x := todo[p];
      var n := NodeOf(r, Key(x.req));
      var nodes' := nodes[n := Next(other, At(nodes, n), x.req)];
      NodeStep(other, r, nodes, st, x.req);
      WithoutKeepsIds(todo, p);
      AnyOrder(other, r, Without(todo, p), order[1..], nodes', Next(other, st, x.req));
      MoveToFront(other, todo, p, st);
      RunCons(other, x, Without(todo, p), st);
    }
  }
}
