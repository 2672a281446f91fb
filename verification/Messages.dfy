/**
 Pooled messages and requests: proxy/proto/message.go, and the splitting loops of
 proxy/proto/redis/proxy_conn.go that fill them.
 */
module Messages {
  import opened Resp
  import opened RespReader
  import opened Commands

  /** A pooled request object; its items keep leftovers of earlier use. */
  class Req {
    var mType: MergeType
    var resp: Item
    var reply: Item

    ghost predicate Ready()
      reads this
    {
      Valid(resp) && Valid(reply)
    }

    constructor ()
      ensures Ready() && mType == MergeNo
    {
      mType, resp, reply := MergeNo, NEW_ITEM, NEW_ITEM;
    }
  }

  class Message {
    var req: seq<Req>
    var reqNum: nat
    var subs: seq<Message>

    ghost predicate Ok()
      reads this, req
    {
      && reqNum <= |req|
      && (forall i :: 0 <= i < |req| ==> req[i].Ready())
      && (forall i, j :: 0 <= i < j < |req| ==> req[i] != req[j])
    }

    /** That the message stands for exactly these requests. */
    ghost predicate Holds(rs: seq<Request>)
      requires Ok()
      reads this, req
    {
      |rs| == reqNum &&
      forall i :: 0 <= i < |rs| ==> rs[i] == Request(req[i].mType, View(req[i].resp))
    }

    /** Objects in use are the old ones or new ones. */
    twostate predicate Grown()
      reads this
    {
      forall i :: 0 <= i < |req| ==> req[i] in old(req) || fresh(req[i])
    }

    /** A message none of whose objects changed holds what it held. */
    twostate lemma Unmoved(rs: seq<Request>)
      requires old(Ok()) && old(Holds(rs)) && unchanged(this) && forall k :: 0 <= k < |req| ==> unchanged(req[k])
      ensures Ok() && Holds(rs)
    {
      hide View, Valid;
      assert forall k :: 0 <= k < |req| ==> old(req[k].Ready());
    }

    constructor ()
      ensures Ok() && reqNum == 0 && req == [] && subs == []
    {
      req, reqNum, subs := [], 0, [];
    }

    /** `Reset`: the objects stay, the command is gone. */
    method Reset()
      requires Ok()
      modifies this`reqNum
      ensures Ok() && Holds([])
    {
      reqNum := 0;
    }

    /** `nextReq`: the next pooled request, or a new one. */
    method NextReq(ghost rs: seq<Request>) returns (r: Req)
      requires Ok() && Holds(rs)
      modifies this`req, this`reqNum, req
      ensures Ok() && reqNum == old(reqNum) + 1 && r == req[old(reqNum)] && r.mType == MergeNo && Grown()
      ensures forall i :: 0 <= i < |rs| ==> rs[i] == Request(req[i].mType, View(req[i].resp))
    {
      if reqNum < |req| {
        r := req[reqNum];
        reqNum := reqNum + 1;
      } else {
        r := new Req();
        req := req + [r];
        reqNum := reqNum + 1;
      }
      r.mType := MergeNo;
    }

    /** One request of a split command: an array of copies of the given parts. */
    method AddRequest(mType: MergeType, len: string, parts: seq<Item>, ghost views: seq<Resp>, ghost rs: seq<Request>)
      requires Ok() && Holds(rs) && Views(parts, views)
      modifies this`req, this`reqNum, req
      ensures Ok() && Grown() && Holds(rs + [Request(mType, Resp('*', len, views))])
    {
      var r := NextReq(rs);
      var o := RespReader.Reset(r.resp).(kind := '*', data := len);
      ResetView(r.resp, '*', len);
      o := PushCopies(o, parts, views);
      r.mType := mType;
      r.resp := o;
    }

    /** A command kept whole. */
    method AddWhole(cmd: Item, ghost rs: seq<Request>)
      requires Ok() && Holds(rs) && Valid(cmd)
      modifies this`req, this`reqNum, req
      ensures Ok() && Grown() && Holds(rs + [Request(MergeNo, View(cmd))])
    {
      var r := NextReq(rs);
      var o := Copy(r.resp, cmd);
      r.resp := o;
    }
  }

  lemma {:induction false} ResetView(o: Item, kind: char, data: string)
    requires Valid(o)
    ensures Valid(Reset(o).(kind := kind, data := data))
    ensures View(Reset(o).(kind := kind, data := data)) == Resp(kind, data, [])
  {
    LeafView(Reset(o), kind, data);
  }

  method PushCopies(was: Item, parts: seq<Item>, ghost views: seq<Resp>) returns (o: Item)
    requires Valid(was) && View(was).elems == [] && Views(parts, views)
    ensures Valid(o) && View(o) == View(was).(elems := views)
  {
    o := was;
    for i := 0 to |parts|
      invariant Valid(o) && View(o) == View(was).(elems := views[..i])
    {
      NextIsValid(o);
      var e := Copy(NextElem(o), parts[i]);
      PushView(o, e);
      o := Push(o, e);
      assert views[..i + 1] == views[..i] + [views[i]];
    }
    assert views[..|parts|] == views;
  }

  // ---------------------------------------------------------------- the three splitting loops

  /** The elements of a decoded command, as values. */
  lemma ElemViews(cmd: Item)
    requires Valid(cmd)
    ensures |View(cmd).elems| == cmd.size <= |cmd.elems|
    ensures forall i :: 0 <= i < cmd.size ==> Valid(cmd.elems[i]) && View(cmd.elems[i]) == View(cmd).elems[i]
  {
  }

  function WordItem(data: string): Item { Item('$', data, [], 0) }

  lemma {:induction false} WordView(data: string)
    ensures Valid(WordItem(data)) && View(WordItem(data)) == Word(data)
  {
    assert View(WordItem(data)).elems == [];
  }

  method SplitMSet(m: Message, cmd: Item)
    requires m.Ok() && m.Holds([]) && Valid(cmd) && cmd.size % 2 == 1 && View(cmd).elems != []
    modifies m`req, m`reqNum, m.req
    ensures m.Ok() && m.Grown() && m.Holds(Pairs(View(cmd).elems))
  {
    ElemViews(cmd);
    WordView(MSET);
    ghost var elems := View(cmd).elems;
    ghost var all := Pairs(elems);
    hide View, Valid, Pairs;
    var mid := cmd.size / 2;
    for i := 0 to mid
      invariant m.Ok() && m.Grown() && m.Holds(all[..i])
    {
      m.AddRequest(MergeOK, "3", [WordItem(MSET), cmd.elems[i * 2 + 1], cmd.elems[i * 2 + 2]],
                   [Word(MSET), elems[i * 2 + 1], elems[i * 2 + 2]], all[..i]);
      assert all[..i + 1] == all[..i] + [all[i]];
    }
    assert all[..mid] == all;
  }

  /** MGET (with GET in front of every key) and DEL and EXISTS (with the command itself). */
  method SplitKeys(m: Message, cmd: Item, mType: MergeType, name: Item, ghost word: Resp)
    requires m.Ok() && m.Holds([]) && Valid(cmd) && View(cmd).elems != [] && Valid(name) && View(name) == word
    modifies m`req, m`reqNum, m.req
    ensures m.Ok() && m.Grown() && m.Holds(PerKey(mType, word, View(cmd).elems))
  {
    ElemViews(cmd);
    ghost var elems := View(cmd).elems;
    ghost var all := PerKey(mType, word, elems);
    hide View, Valid, PerKey;
    for i := 1 to cmd.size
      invariant m.Ok() && m.Grown() && m.Holds(all[..i - 1])
    {
      m.AddRequest(mType, "2", [name, cmd.elems[i]], [word, elems[i]], all[..i - 1]);
      assert all[..i] == all[..i - 1] + [all[i - 1]];
    }
    assert all[..cmd.size - 1] == all;
  }

  /**
   Whatever a reused message held before, it ends up with the requests of this command and
   no others.
   */
  method SplitInto(m: Message, cmd: Item) returns (e: Result)
    requires m.Ok() && m.Holds([]) && Valid(cmd) && cmd.size >= 1
    modifies m`req, m`reqNum, m.req
    ensures m.Ok() && m.Grown()
    ensures match Split(View(cmd))
      case None => e == Malformed
      case Some(rs) => e == RespReader.Ok && m.Holds(rs)
  {
    ElemViews(cmd);
    var name := cmd.elems[0].data;
    if name == MSET {
      if cmd.size % 2 == 0 {
        return Malformed;
      }
      SplitMSet(m, cmd);
    } else if name == MGET {
      WordView(GET);
      SplitKeys(m, cmd, MergeJoin, WordItem(GET), Word(GET));
    } else if name == DEL || name == EXISTS {
      SplitKeys(m, cmd, MergeCount, cmd.elems[0], View(cmd).elems[0]);
    } else {
      m.AddWhole(cmd, []);
      assert [] + [Request(MergeNo, View(cmd))] == [Request(MergeNo, View(cmd))];
    }
    return RespReader.Ok;
  }

  // ---------------------------------------------------------------- batches

  /** `Batch` gives request `i` - the very object, so its reply is seen - to sub-message `i`. */
  method Batch(m: Message) returns (subs: seq<Message>)
    requires m.Ok() && m !in m.subs && forall i, j :: 0 <= i < j < |m.subs| ==> m.subs[i] != m.subs[j]
    modifies m`subs, m.subs
    ensures m.req == old(m.req) && m.reqNum == old(m.reqNum)
    ensures |subs| == m.reqNum && subs <= m.subs
    ensures forall i :: 0 <= i < |subs| ==> subs[i].req == [m.req[i]] && subs[i].reqNum == 1
    ensures forall i, j :: 0 <= i < j < |m.subs| ==> m.subs[i] != m.subs[j]
  {
    var slen := m.reqNum;
    if slen == 0 {
      return [];
    }
    var min := if |m.subs| < slen then |m.subs| else slen;
    for i := 0 to min
      invariant m.subs == old(m.subs) && m.req == old(m.req) && m.reqNum == old(m.reqNum)
      invariant forall j :: 0 <= j < i ==> m.subs[j].req == [m.req[j]] && m.subs[j].reqNum == 1
    {
      m.subs[i].req := [m.req[i]];
      m.subs[i].reqNum := 1;
    }
    var delta := slen - |m.subs|;
    var i := 0;
    while i < delta
      invariant 0 <= i && (delta >= 0 ==> i <= delta)
      invariant |m.subs| == |old(m.subs)| + i && m.req == old(m.req) && m.reqNum == old(m.reqNum) && m !in m.subs
      invariant forall j :: 0 <= j < |m.subs| && j < slen ==> m.subs[j].req == [m.req[j]] && m.subs[j].reqNum == 1
      invariant forall j, k :: 0 <= j < k < |m.subs| ==> m.subs[j] != m.subs[k]
      modifies m`subs
    {
      var sub := new Message();
      sub.req := [m.req[min + i]];
      sub.reqNum := 1;
      m.subs := m.subs + [sub];
      i := i + 1;
    }
    subs := m.subs[..slen];
  }
}
