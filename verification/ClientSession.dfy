/**
 A client session from bytes to bytes: what arrives is cut into reads anyhow, decoded, split,
 sent to the nodes, answered in any order that keeps connections in order, merged and written.
 */
module ClientSession {
  import opened Common
  import opened Resp
  import opened Commands
  import opened Sharding
  import opened Merging
  import opened Pipeline
  import opened ProxyConn

  /** The commands of a stream, named in upper case. */
  function CommandsIn(s: string): seq<Resp>
    decreases |s|
  {
    match NextCommand(s)
    case Command(v, rest) => [Named(v)] + CommandsIn(rest)
    case More(_) => []
    case Fails(_) => []
  }

  /** The messages of commands. */
  function MessagesOf(cmds: seq<Resp>): (ms: seq<seq<Request>>)
    ensures |ms| == |cmds| && forall i :: 0 <= i < |ms| ==> ms[i] == Pipeline.Requests(cmds[i])
  {
    seq(|cmds|, i requires 0 <= i < |cmds| => Pipeline.Requests(cmds[i]))
  }

  lemma {:induction false} DecodedAreMessages(s: string)
    requires All(s).stop == NeedMore
    ensures All(s).msgs == MessagesOf(CommandsIn(s))
    decreases |s|
  {
    hide NextCommand, Commands.Split;
    match NextCommand(s)
    case Command(v, rest) =>
      DecodedAreMessages(rest);
      assert MessagesOf(CommandsIn(s)) == [Pipeline.Requests(Named(v))] + MessagesOf(CommandsIn(rest));
    case More(_) =>
      assert MessagesOf(CommandsIn(s)) == [];
    case Fails(_) =>
  }

  // ---------------------------------------------------------------- messages as they are handed on

  /** The requests of all messages, in the order they are pushed. */
  function Pushed(ms: seq<seq<Request>>, base: nat): seq<Issued> {
    if ms == [] then [] else Issue(ms[0], base) + Pushed(ms[1..], base + |ms[0]|)
  }

  /** What is written to the client for each message. */
  function Answered(ms: seq<seq<Request>>, replies: map<nat, Resp>, base: nat): seq<Option<string>> {
    if ms == [] then []
    else
      [if ms[0] == [] then None else Merged(ms[0][0].mType, Collect(replies, base, |ms[0]|))]
        + Answered(ms[1..], replies, base + |ms[0]|)
  }

  lemma {:induction false} PushedAreIssued(cmds: seq<Resp>, base: nat)
    ensures Pushed(MessagesOf(cmds), base) == IssueAll(cmds, base)
    decreases |cmds|
  {
    hide Pipeline.Requests, Issue;
    if cmds != [] {
      assert MessagesOf(cmds)[1..] == MessagesOf(cmds[1..]);
      PushedAreIssued(cmds[1..], base + |Pipeline.Requests(cmds[0])|);
    }
  }

  lemma {:induction false} AnsweredAreWritten(cmds: seq<Resp>, replies: map<nat, Resp>, base: nat)
    ensures Answered(MessagesOf(cmds), replies, base) == Written(cmds, replies, base)
    decreases |cmds|
  {
    hide Pipeline.Requests, Merged, Collect;
    if cmds != [] {
      assert MessagesOf(cmds)[1..] == MessagesOf(cmds[1..]);
      AnsweredAreWritten(cmds[1..], replies, base + |Pipeline.Requests(cmds[0])|);
    }
  }

  // ---------------------------------------------------------------- from bytes to bytes

  /**
   At any point of a session, however its stream was cut into reads and slots, the messages
   handed out so far, pushed to any sharded nodes and run in any order that keeps connections
   in order, are answered with the bytes one unsharded server writes for the first commands of
   the stream, and leave its data.
   */
  lemma {:induction false} SessionLikeOneServer(other: Semantics, r: Routing, calls: seq<Call>, order: seq<nat>,
      nodes: Nodes, st: Store)
    requires All(Stream(START, calls)).stop == NeedMore && AllLegal(CommandsIn(Stream(START, calls)))
    requires Shards(r, nodes, st) && Fifo(r, Pushed(Outputs(START, calls), 0), order)
    ensures
      var out, todo := Outputs(START, calls), Pushed(Outputs(START, calls), 0);
      var cmds := CommandsIn(Stream(START, calls));
      && |out| <= |cmds|
      && Answered(out, NodeReplies(other, r, todo, order, nodes), 0) == ServerWrites(other, cmds[..|out|], st)
      && Shards(r, NodesAfter(other, r, todo, order, nodes), ServerEnds(other, cmds[..|out|], st))
      && (State(START, calls).completed ==> cmds[..|out|] == cmds)
  {
    hide All, Outputs, State, Stream, CommandsIn, LegalCommand, Fifo, Shards, NodeReplies, NodesAfter, Pushed,
         Answered, ServerWrites, ServerEnds, IssueAll, Written;
    var s := Stream(START, calls);
    var out, cmds := Outputs(START, calls), CommandsIn(s);
    FragmentationIndependence(calls);
    DecodedAreMessages(s);
    var seen := cmds[..|out|];
    assert out == MessagesOf(seen);
    PushedAreIssued(seen, 0);
    ShardingIsTransparent(other, r, seen, order, nodes, st);
    AnsweredAreWritten(seen, NodeReplies(other, r, IssueAll(seen, 0), order, nodes), 0);
  }

  // ---------------------------------------------------------------- commands as a client sends them

  /** Commands sent one after another. */
  ghost predicate Sent(cmds: seq<Resp>) {
    forall i :: 0 <= i < |cmds| ==> WellFormed(cmds[i]) && cmds[i].elems != [] && LegalCommand(Named(cmds[i]))
  }

  function AllNamed(cmds: seq<Resp>): (r: seq<Resp>)
    requires forall i :: 0 <= i < |cmds| ==> cmds[i].elems != []
    ensures |r| == |cmds| && forall i :: 0 <= i < |r| ==> r[i] == Named(cmds[i])
  {
    seq(|cmds|, i requires 0 <= i < |cmds| => Named(cmds[i]))
  }

  lemma {:induction false} NextSent(c: Resp, rest: string)
    requires WellFormed(c) && c.elems != [] && LegalCommand(Named(c))
    ensures NextCommand(Encode(c) + rest) == Command(c, rest)
    ensures NextMsg(Encode(c) + rest).Requests? && NextMsg(Encode(c) + rest).after == rest
  {
    hide Parse, WellFormed, Encode, SingleKeyData, Named;
    RoundTrip(c, rest);
    var s := Encode(c) + rest;
    assert s[|Encode(c)|..] == rest;
    SplitForms(Named(c));
    hide Commands.Split;
  }

  lemma NothingSent()
    ensures NextMsg("") == Wait("") && NextCommand("") == More("")
  {
  }

  lemma {:induction false} SentIsDecoded(cmds: seq<Resp>)
    requires Sent(cmds)
    ensures All(EncodeAll(cmds)).stop == NeedMore && CommandsIn(EncodeAll(cmds)) == AllNamed(cmds)
    decreases |cmds|
  {
    hide WellFormed, Encode, LegalCommand, NextMsg, NextCommand;
    if cmds == [] {
      NothingSent();
    } else {
      NextSent(cmds[0], EncodeAll(cmds[1..]));
      SentIsDecoded(cmds[1..]);
      assert AllNamed(cmds) == [Named(cmds[0])] + AllNamed(cmds[1..]);
    }
  }

  /** Bytes in, bytes out: a client that sends commands gets one server's answers to them. */
  lemma {:induction false} BytesInBytesOut(other: Semantics, r: Routing, cmds: seq<Resp>, calls: seq<Call>,
      order: seq<nat>, nodes: Nodes, st: Store)
    requires Sent(cmds) && Stream(START, calls) == EncodeAll(cmds) && State(START, calls).completed
    requires Shards(r, nodes, st) && Fifo(r, Pushed(Outputs(START, calls), 0), order)
    ensures
      var todo := Pushed(Outputs(START, calls), 0);
      && Answered(Outputs(START, calls), NodeReplies(other, r, todo, order, nodes), 0)
         == ServerWrites(other, AllNamed(cmds), st)
      && Shards(r, NodesAfter(other, r, todo, order, nodes), ServerEnds(other, AllNamed(cmds), st))
  {
    hide All, Outputs, State, Stream, CommandsIn, LegalCommand, WellFormed, EncodeAll, Fifo, Shards,
         NodeReplies, NodesAfter, Pushed, Answered, ServerWrites, ServerEnds, Named;
    SentIsDecoded(cmds);
    SessionLikeOneServer(other, r, calls, order, nodes, st);
  }
}
