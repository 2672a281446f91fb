/**
 The whole way of a client's pipeline: commands are split, the requests run on their nodes
 in any order the connections allow, the replies are merged.
 */
module Pipeline {
  import opened Common
  import opened Resp
  import opened Commands
  import opened Sharding
  import opened Merging

  ghost predicate AllLegal(cmds: seq<Resp>) {
    forall i :: 0 <= i < |cmds| ==> LegalCommand(cmds[i])
  }

  /** The requests of one command, numbered from `base`. */
  function Issue(reqs: seq<Request>, base: nat): (todo: seq<Issued>)
    ensures |todo| == |reqs| && forall j :: 0 <= j < |reqs| ==> todo[j] == Issued(base + j, reqs[j].resp)
  {
    seq(|reqs|, j requires 0 <= j < |reqs| => Issued(base + j, reqs[j].resp))
  }

  function Requests(c: Resp): seq<Request> {
    if c.elems == [] then [] else match Split(c) case None => [] case Some(reqs) => reqs
  }

  /** All requests of a pipeline in the order they are pushed. */
  function IssueAll(cmds: seq<Resp>, base: nat): seq<Issued> {
    if cmds == [] then []
    else Issue(Requests(cmds[0]), base) + IssueAll(cmds[1..], base + |Requests(cmds[0])|)
  }

  lemma {:induction false} IssueAllCons(cmds: seq<Resp>, base: nat)
    requires cmds != []
    ensures IssueAll(cmds, base) == Issue(Requests(cmds[0]), base) + IssueAll(cmds[1..], base + |Requests(cmds[0])|)
  {
    hide Requests, Issue;
  }

  lemma {:induction false} IdsInOrder(cmds: seq<Resp>, base: nat)
    ensures forall i :: 0 <= i < |IssueAll(cmds, base)| ==> IssueAll(cmds, base)[i].id == base + i
  {
    hide Requests;
    if cmds != [] {
      IdsInOrder(cmds[1..], base + |Requests(cmds[0])|);
    }
  }

  /** The replies to requests `base` up to `base + n`, where they have arrived. */
  function Collect(replies: map<nat, Resp>, base: nat, n: nat): (rs: seq<Resp>)
    ensures |rs| == n
  {
    seq(n, j requires 0 <= j < n => if base + j in replies then replies[base + j] else Resp(' ', "", []))
  }

  /** What the proxy writes for each command. */
  function Written(cmds: seq<Resp>, replies: map<nat, Resp>, base: nat): seq<Option<string>> {
    if cmds == [] then []
    else
      var reqs := Requests(cmds[0]);
      [if reqs == [] then None else Merged(reqs[0].mType, Collect(replies, base, |reqs|))]
        + Written(cmds[1..], replies, base + |reqs|)
  }

  /** What one server holding everything writes for each command, and where it ends up. */
  function ServerWrites(other: Semantics, cmds: seq<Resp>, st: Store): seq<Option<string>> {
    if cmds == [] || cmds[0].elems == [] then []
    else [Some(Encode(ServerReply(other, cmds[0], st)))] + ServerWrites(other, cmds[1..],
      ServerStore(other, cmds[0], st))
  }

  function ServerEnds(other: Semantics, cmds: seq<Resp>, st: Store): Store {
    if cmds == [] || cmds[0].elems == [] then st else ServerEnds(other, cmds[1..], ServerStore(other, cmds[0], st))
  }

  lemma {:induction false} RunConcat(other: Semantics, a: seq<Issued>, b: seq<Issued>, st: Store)
    ensures RunStore(other, a + b, st) == RunStore(other, b, RunStore(other, a, st))
    ensures RunReplies(other, a + b, st) == RunReplies(other, b, RunStore(other, a, st)) + RunReplies(other, a, st)
  {
    hide Next, Reply;
    if a == [] {
      assert [] + b == b;
    } else {
      var st1 := Next(other, st, a[0].req);
      assert a == [a[0]] + a[1..] && a + b == [a[0]] + (a[1..] + b);
      RunCons(other, a[0], a[1..] + b, st);
      RunCons(other, a[0], a[1..], st);
      RunConcat(other, a[1..], b, st1);
    }
  }

  /** The map of replies to one command. */
  ghost predicate Numbered(m: map<nat, Resp>, base: nat, rs: seq<Resp>) {
    && (forall id :: id in m <==> base <= id < base + |rs|)
    && (forall id :: id in m ==> m[id] == rs[id - base])
  }

  lemma {:induction false} IssuedRuns(other: Semantics, reqs: seq<Request>, base: nat, st: Store)
    ensures RunStore(other, Issue(reqs, base), st) == StoreAfter(other, reqs, st)
    ensures Numbered(RunReplies(other, Issue(reqs, base), st), base, RepliesTo(other, reqs, st))
  {
    hide Next, Reply;
    if reqs != [] {
      var st1 := Next(other, st, reqs[0].resp);
      IssuedRuns(other, reqs[1..], base + 1, st1);
      assert Issue(reqs, base) == [Issued(base, reqs[0].resp)] + Issue(reqs[1..], base + 1);
      RunCons(other, Issued(base, reqs[0].resp), Issue(reqs[1..], base + 1), st);
      NumberedCons(RunReplies(other, Issue(reqs[1..], base + 1), st1), base,
                   Reply(other, st, reqs[0].resp), RepliesTo(other, reqs[1..], st1));
    }
  }

  lemma NumberedCons(m: map<nat, Resp>, base: nat, x: Resp, rs: seq<Resp>)
    requires Numbered(m, base + 1, rs)
    ensures Numbered(m[base := x], base, [x] + rs)
  {
  }

  /** That `replies` has everything `part` has. */
  ghost predicate Includes(replies: map<nat, Resp>, part: map<nat, Resp>) {
    forall id :: id in part ==> id in replies && replies[id] == part[id]
  }

  lemma {:induction false} LaterIds(other: Semantics, cmds: seq<Resp>, base: nat, st: Store)
    ensures forall id :: id in RunReplies(other, IssueAll(cmds, base), st) ==> id >= base
  {
    IdsInOrder(cmds, base);
    IdsOfRun(other, IssueAll(cmds, base), base, st);
  }

  lemma {:induction false} IdsOfRun(other: Semantics, todo: seq<Issued>, low: nat, st: Store)
    requires forall i :: 0 <= i < |todo| ==> todo[i].id >= low
    ensures forall id :: id in RunReplies(other, todo, st) ==> id >= low
  {
    hide Next, Reply;
    if todo != [] {
      IdsOfRun(other, todo[1..], low, Next(other, st, todo[0].req));
    }
  }

  /** That running the pipeline in the order issued is the server's doing. */
  ghost predicate LikeServer(other: Semantics, cmds: seq<Resp>, base: nat, st: Store, replies: map<nat, Resp>) {
    && RunStore(other, IssueAll(cmds, base), st) == ServerEnds(other, cmds, st)
    && Written(cmds, replies, base) == ServerWrites(other, cmds, st)
  }

  /** What the first command of a pipeline leaves to the rest. */
  lemma {:induction false} FirstCommand(other: Semantics, cmds: seq<Resp>, base: nat, st: Store, replies: map<nat,
      Resp>, next: nat, st1: Store)
    requires cmds != [] && LegalCommand(cmds[0])
    requires Includes(replies, RunReplies(other, IssueAll(cmds, base), st))
    requires next == base + |Requests(cmds[0])| && st1 == ServerStore(other, cmds[0], st)
    ensures Includes(replies, RunReplies(other, IssueAll(cmds[1..], next), st1))
    ensures RunStore(other, IssueAll(cmds, base), st) == RunStore(other, IssueAll(cmds[1..], next), st1)
    ensures Collect(replies, base, |Requests(cmds[0])|) == RepliesTo(other, Requests(cmds[0]), st)
  {
    hide LegalCommand, Requests, IssueAll, RunStore, RunReplies, Merged, Encode, ServerReply, ServerStore,
         StoreAfter, RepliesTo, Collect, Includes, Numbered, Issue;
    CommandDoes(other, cmds[0], st);
    var reqs, rest := Requests(cmds[0]), IssueAll(cmds[1..], next);
    IssueAllCons(cmds, base);
    LaterIds(other, cmds[1..], next, st1);
    IssuedRuns(other, reqs, base, st);
    RunConcat(other, Issue(reqs, base), rest, st);
    HeadReplies(other, reqs, rest, base, st, st1, replies);
  }

  lemma {:induction false} LikeServerCons(other: Semantics, cmds: seq<Resp>, base: nat, st: Store, replies: map<nat,
      Resp>, next: nat, st1: Store)
    requires cmds != [] && LegalCommand(cmds[0])
    requires next == base + |Requests(cmds[0])| && st1 == ServerStore(other, cmds[0], st)
    requires RunStore(other, IssueAll(cmds, base), st) == RunStore(other, IssueAll(cmds[1..], next), st1)
    requires Collect(replies, base, |Requests(cmds[0])|) == RepliesTo(other, Requests(cmds[0]), st)
    requires LikeServer(other, cmds[1..], next, st1, replies)
    ensures LikeServer(other, cmds, base, st, replies)
  {
    hide LegalCommand, Requests, IssueAll, RunStore, Merged, ServerReply, ServerStore, Encode, RepliesTo,
         Collect, StoreAfter;
    CommandDoes(other, cmds[0], st);
  }

  /** One by one, in the order issued, the pipeline is the server's. */
  lemma {:induction false} InOrder(other: Semantics, cmds: seq<Resp>, base: nat, st: Store, replies: map<nat, Resp>)
    requires AllLegal(cmds) && Includes(replies, RunReplies(other, IssueAll(cmds, base), st))
    ensures LikeServer(other, cmds, base, st, replies)
    decreases |cmds|
  {
    if cmds != [] {
      assert LegalCommand(cmds[0]);
      var next, st1 := base + |Requests(cmds[0])|, ServerStore(other, cmds[0], st);
      hide LikeServer, Includes, LegalCommand, Requests, IssueAll, RunStore, ServerStore, RepliesTo, Collect;
      FirstCommand(other, cmds, base, st, replies, next, st1);
      InOrder(other, cmds[1..], next, st1, replies);
      LikeServerCons(other, cmds, base, st, replies, next, st1);
    }
  }

  lemma {:induction false} CommandDoes(other: Semantics, c: Resp, st: Store)
    requires LegalCommand(c)
    ensures c.elems != [] && Requests(c) != []
    ensures StoreAfter(other, Requests(c), st) == ServerStore(other, c, st)
    ensures Merged(Requests(c)[0].mType, RepliesTo(other, Requests(c), st)) == Some(Encode(ServerReply(other, c, st)))
  {
    SplitThenMerge(other, c, st);
  }

  /** The replies to the first command, picked out of all of them. */
  lemma {:induction false} HeadReplies(other: Semantics, reqs: seq<Request>, rest: seq<Issued>, base: nat, st: Store,
      st1: Store, replies: map<nat, Resp>)
    requires Includes(replies, RunReplies(other, Issue(reqs, base) + rest, st))
    requires st1 == StoreAfter(other, reqs, st)
    requires forall id :: id in RunReplies(other, rest, st1) ==> id >= base + |reqs|
    ensures Collect(replies, base, |reqs|) == RepliesTo(other, reqs, st)
    ensures Includes(replies, RunReplies(other, rest, st1))
  {
    hide RunStore, RunReplies, StoreAfter, RepliesTo;
    IssuedRuns(other, reqs, base, st);
    RunConcat(other, Issue(reqs, base), rest, st);
    var one, two := RunReplies(other, Issue(reqs, base), st), RunReplies(other, rest, st1);
    forall j | 0 <= j < |reqs|
      ensures Collect(replies, base, |reqs|)[j] == RepliesTo(other, reqs, st)[j]
    {
      var id := base + j;
      assert id in one && id in two + one;
    }
    forall id | id in two
      ensures id in replies && replies[id] == two[id]
    {
      assert id in two + one && id !in one;
    }
  }

  /**
   Sharding is transparent. For every pipeline of single-key commands and non-empty MGET,
   MSET, DEL and EXISTS, every routing of keys to connections and nodes, and every execution
   that runs each connection's requests in the order they were pushed, the bytes written to
   the client are those of one unsharded server, and the nodes together end with its data.
   */
  lemma {:induction false} ShardingIsTransparent(other: Semantics, r: Routing, cmds: seq<Resp>, order: seq<nat>,
      nodes: Nodes, st: Store)
    requires AllLegal(cmds) && Shards(r, nodes, st) && Fifo(r, IssueAll(cmds, 0), order)
    ensures Written(cmds, NodeReplies(other, r, IssueAll(cmds, 0), order, nodes), 0) == ServerWrites(other, cmds, st)
    ensures Shards(r, NodesAfter(other, r, IssueAll(cmds, 0), order, nodes), ServerEnds(other, cmds, st))
  {
    var todo := IssueAll(cmds, 0);
    IdsInOrder(cmds, 0);
    AnyOrder(other, r, todo, order, nodes, st);
    InOrder(other, cmds, 0, st, RunReplies(other, todo, st));
  }
}
