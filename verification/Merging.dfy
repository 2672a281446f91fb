/**
 Putting the replies of a split command together again (`Encode`, `mergeOK`, `mergeCount`
 and `mergeJoin` of proxy/proto/redis/proxy_conn.go), and the whole path of a pipeline from
 commands to the bytes the client reads.
 */
module Merging {
  import opened Common
  import opened Decimal
  import opened Text
  import opened Resp
  import opened Commands
  import opened Sharding

  // ---------------------------------------------------------------- merging

  function SumOf(replies: seq<Resp>): Option<int> {
    if replies == [] then Some(0)
    else
      match (SumOf(replies[..|replies| - 1]), ParseInt(replies[|replies| - 1].data))
      case (Some(a), Some(b)) => Some(a + b)
      case _ => None
  }

  /** What is written for a command whose requests got these replies; `None` is ErrBadCount. */
  function Merged(mType: MergeType, replies: seq<Resp>): Option<string>
    requires replies != []
  {
    match mType
    case MergeOK => Some("+" + "OK\r\n")
    case MergeCount => (match SumOf(replies)
      case None => None
      case Some(n) => Some(":" + Itoa(n) + CRLF))
    case MergeJoin => Some("*" + Itoa(|replies|) + CRLF + EncodeAll(replies))
    case MergeNo => Some(Encode(replies[0]))
  }

  lemma {:induction false} EncodeAllSnoc(vs: seq<Resp>, v: Resp)
    ensures EncodeAll(vs + [v]) == EncodeAll(vs) + Encode(v)
  {
    hide Encode;
    if vs == [] {
      assert [] + [v] == [v] && [v][1..] == [];
      assert EncodeAll([v]) == Encode(v) + "" && EncodeAll([]) == "";
      assert Encode(v) + "" == Encode(v) && "" + Encode(v) == Encode(v);
    } else {
      assert (vs + [v])[0] == vs[0] && (vs + [v])[1..] == vs[1..] + [v];
      EncodeAllSnoc(vs[1..], v);
      Associate(Encode(vs[0]), EncodeAll(vs[1..]), Encode(v));
    }
  }

  /** `mergeCount`: the sum of the replies; one that is no number spoils it. */
  method WriteCount(replies: seq<Resp>) returns (r: Option<string>)
    requires replies != []
    ensures r == Merged(MergeCount, replies)
  {
    hide Itoa, ParseInt;
    var sum := 0;
    for i := 0 to |replies|
      invariant SumOf(replies[..i]) == Some(sum)
    {
      var ival := Btoi(replies[i].data);
      assert replies[..i + 1][..i] == replies[..i];
      if ival.None? {
        CountPrefix(replies, i + 1);
        return None;
      }
      sum := sum + ival.value;
    }
    assert replies[..|replies|] == replies;
    return Some(":" + Itoa(sum) + CRLF);
  }

  /** `mergeJoin`: an array of the replies, written one after another. */
  method WriteJoined(replies: seq<Resp>) returns (out: string)
    requires replies != []
    ensures Some(out) == Merged(MergeJoin, replies)
  {
    hide Itoa, Encode, EncodeAll;
    out := "*" + Itoa(|replies|) + CRLF;
    ghost var head := out;
    NoneEncoded();
    for i := 0 to |replies|
      invariant out == head + EncodeAll(replies[..i])
    {
      EncodeAllSnoc(replies[..i], replies[i]);
      assert replies[..i + 1] == replies[..i] + [replies[i]];
      Associate(head, EncodeAll(replies[..i]), Encode(replies[i]));
      out := out + Encode(replies[i]);
    }
    assert replies[..|replies|] == replies;
  }

  lemma NoneEncoded()
    ensures EncodeAll([]) == ""
  {
  }

  /** `Encode` of a message without error. */
  method EncodeMessage(mType: MergeType, replies: seq<Resp>) returns (r: Option<string>)
    requires replies != []
    ensures r == Merged(mType, replies)
  {
    match mType
    case MergeOK =>
      return Some("+" + "OK\r\n");
    case MergeCount =>
      r := WriteCount(replies);
    case MergeJoin =>
      var out := WriteJoined(replies);
      return Some(out);
    case MergeNo =>
      return Some(Encode(replies[0]));
  }

  /** One reply that is no number spoils the count. */
  lemma {:induction false} CountPrefix(replies: seq<Resp>, n: nat)
    requires n <= |replies| && SumOf(replies[..n]).None?
    ensures SumOf(replies).None?
    decreases |replies| - n
  {
    hide ParseInt;
    if n < |replies| {
      assert replies[..n + 1][..n] == replies[..n];
      CountPrefix(replies, n + 1);
    } else {
      assert replies[..n] == replies;
    }
  }

  // ---------------------------------------------------------------- one unsharded server

  /** The keys behind the name of a command. */
  function Keys(elems: seq<Resp>): (ks: seq<string>)
    ensures |ks| == |elems| && forall i :: 0 <= i < |ks| ==> ks[i] == Payload(elems[i])
  {
    seq(|elems|, i requires 0 <= i < |elems| => Payload(elems[i]))
  }

  function SetAll(args: seq<Resp>, st: Store): Store {
    if |args| < 2 then st else SetAll(args[2..], st[Payload(args[0]) := Payload(args[1])])
  }

  function Present(ks: seq<string>, st: Store): set<string> { set k | k in ks && k in st }

  function CountPresent(ks: seq<string>, st: Store): nat {
    if ks == [] then 0 else One(ks[0] in st) + CountPresent(ks[1..], st)
  }

  function Values(ks: seq<string>, st: Store): (vs: seq<Resp>)
    ensures |vs| == |ks| && forall i :: 0 <= i < |ks| ==> vs[i] == ValueReply(Lookup(st, ks[i]))
  {
    seq(|ks|, i requires 0 <= i < |ks| => ValueReply(Lookup(st, ks[i])))
  }

  /** What one Redis server holding everything does: MSET sets in order, DEL removes each key once. */
  function ServerStore(other: Semantics, c: Resp, st: Store): Store
    requires c.elems != []
  {
    var name, args := c.elems[0].data, c.elems[1..];
    if name == MGET || name == EXISTS then st
    else if name == MSET then SetAll(args, st)
    else if name == DEL then st - Present(Keys(args), st)
    else Next(other, st, c)
  }

  /** Its reply: DEL counts the keys it removed, EXISTS counts a repeated key every time. */
  function ServerReply(other: Semantics, c: Resp, st: Store): Resp
    requires c.elems != []
  {
    var name, args := c.elems[0].data, c.elems[1..];
    if name == MGET then Resp('*', Itoa(|args|), Values(Keys(args), st))
    else if name == MSET then OK_REPLY
    else if name == DEL then IntReply(|Present(Keys(args), st)|)
    else if name == EXISTS then IntReply(CountPresent(Keys(args), st))
    else Reply(other, st, c)
  }

  // ---------------------------------------------------------------- a split command on one store

  function StoreAfter(other: Semantics, reqs: seq<Request>, st: Store): Store {
    if reqs == [] then st else StoreAfter(other, reqs[1..], Next(other, st, reqs[0].resp))
  }

  function RepliesTo(other: Semantics, reqs: seq<Request>, st: Store): (rs: seq<Resp>)
    ensures |rs| == |reqs|
  {
    if reqs == [] then [] else [Reply(other, st, reqs[0].resp)] + RepliesTo(other, reqs[1..],
      Next(other, st, reqs[0].resp))
  }

  /** Requests built from one name and one key each. */
  function ForKeys(mType: MergeType, name: Resp, ks: seq<Resp>): (rs: seq<Request>)
    ensures |rs| == |ks| && forall i :: 0 <= i < |ks| ==> rs[i] == Request(mType, OneKey(name, ks[i]))
  {
    seq(|ks|, i requires 0 <= i < |ks| => Request(mType, OneKey(name, ks[i])))
  }

  lemma ForKeysTail(mType: MergeType, name: Resp, ks: seq<Resp>)
    requires ks != []
    ensures ForKeys(mType, name, ks)[1..] == ForKeys(mType, name, ks[1..])
    ensures Keys(ks)[1..] == Keys(ks[1..]) && Keys(ks)[0] == Payload(ks[0])
  {
  }

  lemma PutBack(st: Store, k: string)
    ensures Put(st, k, Lookup(st, k)) == st
  {
  }

  lemma {:induction false} GetsRead(other: Semantics, ks: seq<Resp>, st: Store)
    ensures StoreAfter(other, ForKeys(MergeJoin, Word(GET), ks), st) == st
    ensures RepliesTo(other, ForKeys(MergeJoin, Word(GET), ks), st) == Values(Keys(ks), st)
  {
    hide Payload, ValueReply;
    if ks != [] {
      ForKeysTail(MergeJoin, Word(GET), ks);
      PutBack(st, Payload(ks[0]));
      GetsRead(other, ks[1..], st);
      assert Values(Keys(ks), st) == [ValueReply(Lookup(st, Payload(ks[0])))] + Values(Keys(ks[1..]), st);
    }
  }

  lemma {:induction false} ParseOne(n: int)
    ensures SumOf([IntReply(n)] + []) == SumOf([IntReply(n)])
    ensures INT64_MIN <= n <= INT64_MAX ==> ParseInt(IntReply(n).data) == Some(n)
  {
    ItoaRoundTrip(n);
    assert [IntReply(n)] + [] == [IntReply(n)];
  }

  lemma {:induction false} SumCons(n: int, rest: seq<Resp>)
    requires INT64_MIN <= n <= INT64_MAX && SumOf(rest).Some?
    ensures SumOf([IntReply(n)] + rest) == Some(n + SumOf(rest).value)
  {
    ParseOne(n);
    hide ParseInt, IntReply;
    var all := [IntReply(n)] + rest;
    if rest == [] {
      assert all[..|all| - 1] == [];
    } else {
      assert all[..|all| - 1] == [IntReply(n)] + rest[..|rest| - 1];
      SumCons(n, rest[..|rest| - 1]);
    }
  }

  lemma {:induction false} ExistsCounts(other: Semantics, name: Resp, ks: seq<Resp>, st: Store)
    requires name.data == EXISTS
    ensures StoreAfter(other, ForKeys(MergeCount, name, ks), st) == st
    ensures SumOf(RepliesTo(other, ForKeys(MergeCount, name, ks), st)) == Some(CountPresent(Keys(ks), st))
  {
    hide Payload, SumOf, IntReply;
    if ks == [] {
      SumOfNone();
    } else {
      ForKeysTail(MergeCount, name, ks);
      PutBack(st, Payload(ks[0]));
      ExistsCounts(other, name, ks[1..], st);
      SumCons(One(Payload(ks[0]) in st), RepliesTo(other, ForKeys(MergeCount, name, ks[1..]), st));
    }
  }

  lemma SumOfNone()
    ensures SumOf([]) == Some(0)
  {
  }

  lemma {:induction false} PresentSplit(ks: seq<string>, st: Store)
    requires ks != []
    ensures |Present(ks, st)| == One(ks[0] in st) + |Present(ks[1..], st - {ks[0]})|
    ensures st - Present(ks, st) == (st - {ks[0]}) - Present(ks[1..], st - {ks[0]})
  {
    var rest := Present(ks[1..], st - {ks[0]});
    if ks[0] in st {
      assert Present(ks, st) == rest + {ks[0]};
    } else {
      assert st - {ks[0]} == st;
      assert Present(ks, st) == rest;
    }
  }

  lemma {:induction false} DelsRemove(other: Semantics, name: Resp, ks: seq<Resp>, st: Store)
    requires name.data == DEL
    ensures StoreAfter(other, ForKeys(MergeCount, name, ks), st) == st - Present(Keys(ks), st)
    ensures SumOf(RepliesTo(other, ForKeys(MergeCount, name, ks), st)) == Some(|Present(Keys(ks), st)|)
  {
    hide Payload, SumOf, IntReply;
    if ks == [] {
      SumOfNone();
      assert Present(Keys(ks), st) == {};
    } else {
      ForKeysTail(MergeCount, name, ks);
      var k := Payload(ks[0]);
      DelsRemove(other, name, ks[1..], st - {k});
      PresentSplit(Keys(ks), st);
      SumCons(One(k in st), RepliesTo(other, ForKeys(MergeCount, name, ks[1..]), st - {k}));
    }
  }

  /** Requests for the pairs of an MSET. */
  function ForPairs(args: seq<Resp>): seq<Request> {
    if |args| < 2 then [] else [Request(MergeOK, MSetOne(args[0], args[1]))] + ForPairs(args[2..])
  }

  lemma {:induction false} MSetSets(other: Semantics, args: seq<Resp>, st: Store)
    ensures StoreAfter(other, ForPairs(args), st) == SetAll(args, st)
  {
    hide Payload;
    if |args| >= 2 {
      var reqs := ForPairs(args);
      assert reqs[1..] == ForPairs(args[2..]);
      assert Next(other, st, reqs[0].resp) == st[Payload(args[0]) := Payload(args[1])];
      MSetSets(other, args[2..], st[Payload(args[0]) := Payload(args[1])]);
    }
  }

  lemma {:induction false} PairAt(args: seq<Resp>, i: nat)
    requires i < |args| / 2
    ensures |ForPairs(args)| == |args| / 2
    ensures ForPairs(args)[i] == Request(MergeOK, MSetOne(args[i * 2], args[i * 2 + 1]))
  {
    if |args| < 4 {
      assert i == 0 && ForPairs(args[2..]) == [];
    } else if i > 0 {
      PairAt(args[2..], i - 1);
    } else {
      PairAt(args[2..], 0);
    }
  }

  /**
   Commands the claim is about: single-key ones and the four that are split, with a key at
   least. SET comes without the options that set a lifetime.
   */
  ghost predicate LegalCommand(c: Resp) {
    && |c.elems| >= 2 && (c.elems[0].data in {MSET, MGET, DEL, EXISTS} || SingleKeyData(c.elems[0].data))
    && (c.elems[0].data == MSET ==> |c.elems| % 2 == 1) && (c.elems[0].data == SET ==> |c.elems| == 3)
    && (forall i :: 1 <= i < |c.elems| ==> KeyItem(c.elems[i]))
  }

  /** A bulk string that is not null; `Key` of the original slices out of range on others. */
  predicate KeyItem(v: Resp) { v.kind == '$' && IndexCrlf(v.data) >= 0 }

  lemma {:induction false} SplitForms(c: Resp)
    requires LegalCommand(c)
    ensures Split(c).Some? && Split(c).value != []
    ensures c.elems[0].data == MGET ==> Split(c).value == ForKeys(MergeJoin, Word(GET), c.elems[1..])
    ensures c.elems[0].data == MSET ==> Split(c).value == ForPairs(c.elems[1..])
    ensures c.elems[0].data == DEL || c.elems[0].data == EXISTS ==>
      Split(c).value == ForKeys(MergeCount, c.elems[0], c.elems[1..])
    ensures c.elems[0].data !in {MSET, MGET, DEL, EXISTS} ==> Split(c).value == [Request(MergeNo, c)]
  {
    hide SingleKeyData;
    if c.elems[0].data == MSET {
      var args := c.elems[1..];
      forall i | 0 <= i < |args| / 2
        ensures |ForPairs(args)| == |args| / 2 && Split(c).value[i] == ForPairs(args)[i]
      {
        PairAt(args, i);
      }
      PairAt(args, 0);
      assert |Split(c).value| == |ForPairs(args)|;
    }
  }

  lemma {:induction false} EncodeForms(n: int, vs: seq<Resp>)
    ensures Encode(OK_REPLY) == "+" + "OK\r\n"
    ensures Encode(IntReply(n)) == ":" + Itoa(n) + CRLF
    ensures Encode(Resp('*', Itoa(|vs|), vs)) == "*" + Itoa(|vs|) + CRLF + EncodeAll(vs)
  {
    hide EncodeAll;
  }

  lemma {:induction false} KeptWhole(other: Semantics, c: Resp, st: Store)
    ensures StoreAfter(other, [Request(MergeNo, c)], st) == Next(other, st, c)
    ensures RepliesTo(other, [Request(MergeNo, c)], st)[0] == Reply(other, st, c)
  {
    hide Next, Reply;
    assert [Request(MergeNo, c)][1..] == [];
  }

  ghost predicate Does(other: Semantics, reqs: seq<Request>, c: Resp, st: Store) {
    && reqs != [] && c.elems != [] && StoreAfter(other, reqs, st) == ServerStore(other, c, st)
    && Merged(reqs[0].mType, RepliesTo(other, reqs, st)) == Some(Encode(ServerReply(other, c, st)))
  }

  lemma {:induction false} MGetDoes(other: Semantics, c: Resp, st: Store)
    requires |c.elems| >= 2 && c.elems[0].data == MGET
    ensures Does(other, ForKeys(MergeJoin, Word(GET), c.elems[1..]), c, st)
  {
    hide Encode, EncodeAll, StoreAfter, RepliesTo;
    GetsRead(other, c.elems[1..], st);
    EncodeForms(0, Values(Keys(c.elems[1..]), st));
  }

  lemma {:induction false} MSetDoes(other: Semantics, c: Resp, st: Store)
    requires |c.elems| >= 3 && c.elems[0].data == MSET
    ensures Does(other, ForPairs(c.elems[1..]), c, st)
  {
    PairAt(c.elems[1..], 0);
    hide Encode, EncodeAll, StoreAfter, RepliesTo, ForPairs;
    MSetSets(other, c.elems[1..], st);
    EncodeForms(0, []);
  }

  lemma {:induction false} DelDoes(other: Semantics, c: Resp, st: Store)
    requires |c.elems| >= 2 && c.elems[0].data == DEL
    ensures Does(other, ForKeys(MergeCount, c.elems[0], c.elems[1..]), c, st)
  {
    hide Encode, EncodeAll, StoreAfter, RepliesTo, SumOf, IntReply;
    DelsRemove(other, c.elems[0], c.elems[1..], st);
    EncodeForms(|Present(Keys(c.elems[1..]), st)|, []);
  }

  lemma {:induction false} ExistsDoes(other: Semantics, c: Resp, st: Store)
    requires |c.elems| >= 2 && c.elems[0].data == EXISTS
    ensures Does(other, ForKeys(MergeCount, c.elems[0], c.elems[1..]), c, st)
  {
    hide Encode, EncodeAll, StoreAfter, RepliesTo, SumOf, IntReply;
    ExistsCounts(other, c.elems[0], c.elems[1..], st);
    EncodeForms(CountPresent(Keys(c.elems[1..]), st), []);
  }

  lemma {:induction false} WholeDoes(other: Semantics, c: Resp, st: Store)
    requires c.elems != [] && c.elems[0].data !in {MSET, MGET, DEL, EXISTS}
    ensures Does(other, [Request(MergeNo, c)], c, st)
  {
    hide Encode, StoreAfter, RepliesTo, Next, Reply;
    KeptWhole(other, c, st);
  }

  /** Split, run in order and merged, a command does what one server does. */
  lemma {:induction false} SplitThenMerge(other: Semantics, c: Resp, st: Store)
    requires LegalCommand(c)
    ensures Split(c).Some? && Does(other, Split(c).value, c, st)
  {
    hide SingleKeyData;
    SplitForms(c);
    var name := c.elems[0].data;
    hide Does, Split, ForKeys, ForPairs;
    if name == MGET {
      MGetDoes(other, c, st);
    } else if name == MSET {
      MSetDoes(other, c, st);
    } else if name == DEL {
      DelDoes(other, c, st);
    } else if name == EXISTS {
      ExistsDoes(other, c, st);
    } else {
      WholeDoes(other, c, st);
    }
  }
}
