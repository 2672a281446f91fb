/**
 Reading commands off a client connection: `Decode` and `decode` of
 proxy/proto/redis/proxy_conn.go, and why the way the bytes arrive does not matter.
 */
module ProxyConn {
  import opened Decimal
  import opened Resp
  import opened ReadBuffer
  import opened RespReader
  import opened Commands
  import opened Messages
  import opened Text
  import Words

  // ---------------------------------------------------------------- specification

  /** The next thing in the unread bytes: a command, nothing yet, or a failure. */
  datatype Next = Command(v: Resp, rest: string) | More(rest: string) | Fails(why: Result)

  /** Items without elements - stray replies, empty arrays - are passed over. */
  function NextCommand(s: string): (r: Next)
    ensures r.Command? ==> r.v.elems != [] && |r.rest| < |s|
    ensures r.More? ==> |r.rest| <= |s|
    decreases |s|
  {
    match Parse(s)
    case Done(v, n) => if v.elems == [] then NextCommand(s[n..]) else Command(v, s[n..])
    case Short => More(s)
    case Bad => Fails(Malformed)
    case Crash => Fails(Panic)
  }

  /** An item without elements in front changes nothing. */
  lemma {:induction false} StrayPassed(v: Resp, s: string)
    requires WellFormed(v) && v.elems == []
    ensures NextCommand(Encode(v) + s) == NextCommand(s)
  {
    hide Parse, Encode, WellFormed;
    RoundTrip(v, s);
    assert (Encode(v) + s)[|Encode(v)|..] == s;
  }

  /** The next message as its list of requests. */
  datatype NextM = Requests(rs: seq<Request>, after: string) | Wait(left: string) | Dead(reason: Result)

  function NextMsg(s: string): (r: NextM)
    ensures r.Requests? ==> |r.after| < |s|
  {
    match NextCommand(s)
    case More(rest) => Wait(rest)
    case Fails(why) => Dead(why)
    case Command(v, rest) =>
      match Split(Named(v))
      case None => Dead(Malformed)
      case Some(rs) => Requests(rs, rest)
  }

  datatype Stop = SliceFull | NeedMore | Failed

  datatype Took = Took(msgs: seq<seq<Request>>, rest: string, stop: Stop)

  function Ahead(rs: seq<Request>, t: Took): Took { t.(msgs := [rs] + t.msgs) }

  /** Up to `k` messages. */
  function Take(s: string, k: nat): (t: Took)
    ensures |t.msgs| <= k
    decreases k
  {
    if k == 0 then Took([], s, SliceFull)
    else match NextMsg(s)
      case Requests(rs, rest) => Ahead(rs, Take(rest, k - 1))
      case Wait(left) => Took([], left, NeedMore)
      case Dead(_) => Took([], "", Failed)
  }

  /** All messages. */
  function All(s: string): (t: Took)
    ensures t.stop != SliceFull
    decreases |s|
  {
    match NextMsg(s)
    case Requests(rs, rest) => Ahead(rs, All(rest))
    case Wait(left) => Took([], left, NeedMore)
    case Dead(_) => Took([], "", Failed)
  }

  // ---------------------------------------------------------------- the connection

  class ProxyConn {
    const br: Reader
    var completed: bool
    var resp: Item

    ghost predicate Ok()
      reads this, br, br.b
    {
      br.Valid() && Valid(resp)
    }

    constructor (br: Reader)
      requires br.Valid()
      ensures Ok() && this.br == br && completed
    {
      this.br := br;
      completed := true;
      resp := NEW_ITEM;
    }

    /** The loop that reads items until one has elements. */
    method Skip() returns (e: Result)
      requires Ok()
      modifies this`resp, br.b`r
      ensures Ok() && (br.err != NoError ==> e == Io(br.err))
      ensures br.err == NoError ==> match NextCommand(old(br.b.Unread()))
        case Command(v, rest) => e == RespReader.Ok && View(resp) == v && br.b.Unread() == rest
        case More(rest) => e == Full && br.b.Unread() == rest
        case Fails(why) => e == why && e != RespReader.Ok && e != Full
    {
      hide Parse;
      while true
        invariant Ok() && NextCommand(br.b.Unread()) == NextCommand(old(br.b.Unread()))
        decreases |br.b.Unread()|
      {
        var mark := br.Mark();
        ghost var unread := br.b.Unread();
        var o;
        o, e := RespReader.Decode(br, resp);
        resp := o;
        if e != RespReader.Ok {
          if e == Full {
            br.AdvanceTo(mark);
          }
          return;
        }
        UnreadAfter(br.b, mark, unread);
        ElemViews(o);
        if resp.size != 0 {
          return;
        }
      }
    }

    /** `decode`: one message, or nothing and the position after what was passed over. */
    method DecodeMsg(m: Message, ghost unread: string) returns (e: Result)
      requires Ok() && m.Ok() && m.Holds([]) && br.b.Unread() == unread
      modifies this`resp, br.b`r, m`req, m`reqNum, m.req
      ensures Ok() && m.Ok() && m.Grown() && (br.err != NoError ==> e == Io(br.err))
      ensures br.err == NoError ==> (e == RespReader.Ok <==> NextMsg(unread).Requests?)
      ensures br.err == NoError ==> (e == Full <==> NextMsg(unread).Wait?)
      ensures br.err == NoError && e == RespReader.Ok ==>
        m.Holds(NextMsg(unread).rs) && br.b.Unread() == NextMsg(unread).after
      ensures br.err == NoError && e == Full ==> br.b.Unread() == NextMsg(unread).left
    {
      e := Skip();
      if e != RespReader.Ok {
        return;
      }
      ElemViews(resp);
      UpperName(resp);
      resp := resp.(elems := resp.elems[0 := resp.elems[0].(data := Upper(resp.elems[0].data))]);
      e := SplitInto(m, resp);
    }

    /** One slot: its message is decoded, the messages of the other slots stay as they are. */
    method DecodeSlot(m: Message, ghost ms: seq<Message>, ghost i: nat, ghost held: seq<seq<Request>>,
        ghost unread: string) returns (e: Result)
      requires Ok() && Slots(ms, held) && i < |ms| && m == ms[i] && held[i] == [] && br.b.Unread() == unread
      modifies this`resp, br.b`r, m`req, m`reqNum, m.req
      ensures Ok() && (br.err != NoError ==> e == Io(br.err)) && m.Grown()
      ensures br.err == NoError ==> (e == RespReader.Ok <==> NextMsg(unread).Requests?)
      ensures br.err == NoError ==> (e == Full <==> NextMsg(unread).Wait?)
      ensures br.err == NoError && e == RespReader.Ok ==>
        Slots(ms, held[i := NextMsg(unread).rs]) && br.b.Unread() == NextMsg(unread).after
      ensures br.err == NoError && e == Full ==> br.b.Unread() == NextMsg(unread).left && Slots(ms[..i], held[..i])
      ensures forall r :: r in Pool(ms) ==> r in old(Pool(ms)) || fresh(r)
    {
      hide NextMsg, View, Valid;
      e := DecodeMsg(m, unread);
      if br.err == NoError {
        forall j | 0 <= j < |ms| && j != i
          ensures ms[j].req == old(ms[j].req) && ms[j].Ok() && ms[j].Holds(held[j])
          ensures NoneShared(ms[j].req, m.req) && NoneShared(m.req, ms[j].req)
        {
          assert ms[j] != m && NoneShared(old(ms[j].req), old(m.req));
          assert old(ms[j].Ok() && ms[j].Holds(held[j]));
          assert unchanged(ms[j]);
          forall k | 0 <= k < |ms[j].req|
            ensures unchanged(ms[j].req[k])
          {
            assert ms[j].req[k] in old(ms[j].req);
          }
          ms[j].Unmoved(held[j]);
        }
      }
    }

    /** The last slots could not be filled: the next call is to read first. */
    method RunDry(ghost ms: seq<Message>, ghost held: seq<seq<Request>>)
      requires Slots(ms, held)
      modifies this`completed
      ensures completed && Slots(ms, held)
    {
      completed := true;
    }

    /** The loop of `Decode` after `out`: so many slots are filled, and the rest of the bytes are `unread`. */
    ghost predicate At(ms: seq<Message>, out: seq<seq<Request>>, unread: string, start: string)
      reads this, br, br.b, br.b.buf, ms, Pool(ms)
    {
      && Ok() && !completed && br.b.Unread() == unread && |out| <= |ms|
      && Slots(ms, out + Nothings(|ms| - |out|)) && After(out, Take(unread, |ms| - |out|)) == Take(start, |ms|)
    }

    method FillOne(ms: seq<Message>, i: nat, ghost out: seq<seq<Request>>, ghost unread: string, ghost start: string)
      returns (e: Result, ghost more: seq<seq<Request>>, ghost left: string)
      requires At(ms, out, unread, start) && i == |out| < |ms|
      modifies this`completed, this`resp, br.b`r, ms, Pool(ms)
      ensures Ok() && (br.err != NoError ==> e == Io(br.err))
      ensures forall r :: r in Pool(ms) ==> r in old(Pool(ms)) || fresh(r)
      ensures br.err == NoError && e == RespReader.Ok ==> At(ms, more, left, start) && |more| == i + 1
      ensures br.err == NoError && e == Full ==>
        completed && Slots(ms[..i], out) && Took(out, br.b.Unread(), NeedMore) == Take(start, |ms|)
      ensures br.err == NoError && e != RespReader.Ok && e != Full ==> Take(start, |ms|).stop == Failed
    {
      hide NextMsg, Take, After, View, Valid, Slots, Pool;
      ghost var held := out + Nothings(|ms| - i);
      more, left := out, unread;
      PoolHas(ms, i);
      e := DecodeSlot(ms[i], ms, i, held, unread);
      if br.err != NoError {
        return;
      }
      if e == RespReader.Ok {
        TakeStep(out, unread, |ms| - i);
        more, left := out + [NextMsg(unread).rs], NextMsg(unread).after;
        assert held[i := NextMsg(unread).rs] == more + Nothings(|ms| - i - 1);
      } else {
        TakeStops(out, unread, |ms| - i);
        if e == Full {
          assert held[..i] == out;
          RunDry(ms[..i], out);
        }
      }
    }

    /** The loop of `Decode`. */
    method Fill(ms: seq<Message>, ghost start: string) returns (n: nat, e: Result, ghost out: seq<seq<Request>>)
      requires Ok() && Slots(ms, Nothings(|ms|)) && !completed && br.b.Unread() == start
      modifies this`completed, this`resp, br.b`r, ms, Pool(ms)
      ensures Ok() && n <= |ms| && (e != RespReader.Ok ==> n == 0)
      ensures br.err == NoError ==> (e == RespReader.Ok <==> Take(start, |ms|).stop != Failed)
      ensures br.err == NoError && e == RespReader.Ok ==>
        && n == |out| && Slots(ms[..n], out)
        && Took(out, br.b.Unread(), if completed then NeedMore else SliceFull) == Take(start, |ms|)
    {
      ghost var unread := start;
      out := [];
      TakeNothing(start, |ms|);
      assert [] + Nothings(|ms|) == Nothings(|ms|);
      hide NextMsg, Take, After, View, Valid, Slots, Pool;
      for i := 0 to |ms|
        invariant At(ms, out, unread, start) && |out| == i
        invariant forall r :: r in Pool(ms) ==> r in old(Pool(ms)) || fresh(r)
        invariant i > 0 ==> br.err == NoError
      {
        ghost var done := out;
        e, out, unread := FillOne(ms, i, out, unread, start);
        if e == Full {
          return i, RespReader.Ok, done;
        } else if e != RespReader.Ok {
          return 0, e, [];
        }
      }
      TakeFull(out, unread);
      assert ms[..|ms|] == ms && out + Nothings(0) == out;
      return |ms|, RespReader.Ok, out;
    }

    /** The read in front of the loop, if the last call ran dry. */
    method ReadFirst(ghost ms: seq<Message>, ghost held: seq<seq<Request>>, got: string, ioe: IoError)
        returns (e: IoError)
      requires Ok() && Slots(ms, held) && |got| <= br.b.Room()
      modifies this`completed, br`err, br.b, br.b.buf
      ensures Ok() && Slots(ms, held) && (e == NoError ==> !completed)
      ensures br.err == NoError && (old(completed) ==> got != "") ==>
        e == NoError && br.b.Unread() == if old(completed) then old(br.b.Unread()) + got else old(br.b.Unread())
    {
      e := NoError;
      if completed {
        e := br.Read(got, ioe);
        if e == NoError {
          completed := false;
        }
      }
    }

    /**
     `Decode`: read once if the last call ran dry, then fill the message slots. `got` and `ioe`
     are what the connection hands over if it is read. The first `n` messages are returned;
     each holds the requests of its own command. An error loses the messages of this call.
     */
    method Decode(ms: seq<Message>, got: string, ioe: IoError) returns (n: nat, e: Result)
      requires Ok() && Slots(ms, Nothings(|ms|)) && |got| <= br.b.Room()
      modifies this`completed, this`resp, br`err, br.b, br.b.buf, ms, Pool(ms)
      ensures Ok() && n <= |ms| && (e != RespReader.Ok ==> n == 0)
      ensures br.err == NoError && (old(completed) ==> got != "") ==>
        var t := Take(if old(completed) then old(br.b.Unread()) + got else old(br.b.Unread()), |ms|);
        && (e == RespReader.Ok <==> t.stop != Failed)
        && (t.stop != Failed ==>
              n == |t.msgs| && Slots(ms[..n], t.msgs) && br.b.Unread() == t.rest && completed == (t.stop == NeedMore))
    {
      hide Slots, Pool, Take;
      var ioErr := ReadFirst(ms, Nothings(|ms|), got, ioe);
      if ioErr != NoError {
        return 0, Io(ioErr);
      }
      ghost var out;
      n, e, out := Fill(ms, br.b.Unread());
    }
  }

  ghost function Nothings(k: nat): (held: seq<seq<Request>>)
    ensures |held| == k && forall i :: 0 <= i < k ==> held[i] == []
  {
    seq(k, _ => [])
  }

  /** All pooled requests of the slots. */
  ghost function Pool(ms: seq<Message>): set<Req>
    reads ms
  {
    set i: int, r: Req | 0 <= i < |ms| && r in ms[i].req :: r
  }

  lemma {:induction false} PoolHas(ms: seq<Message>, i: nat)
    requires i < |ms|
    ensures forall r :: r in ms[i].req ==> r in Pool(ms)
  {
  }

  ghost predicate NoneShared(a: seq<Req>, b: seq<Req>) { forall r :: r in a ==> r !in b }

  /** The messages of the slots hold these requests and share no object. */
  ghost predicate Slots(ms: seq<Message>, held: seq<seq<Request>>)
    reads ms, Pool(ms)
  {
    && |ms| == |held|
    && (forall i :: 0 <= i < |ms| ==> (PoolHas(ms, i); ms[i].Ok() && ms[i].Holds(held[i])))
    && (forall i, j :: 0 <= i < |ms| && 0 <= j < |ms| && i != j ==> ms[i] != ms[j] && NoneShared(ms[i].req, ms[j].req))
  }

  lemma {:induction false} TakeNothing(s: string, k: nat)
    ensures After([], Take(s, k)) == Take(s, k)
  {
    hide NextMsg;
    assert [] + Take(s, k).msgs == Take(s, k).msgs;
  }

  ghost function After(out: seq<seq<Request>>, t: Took): Took { t.(msgs := out + t.msgs) }

  lemma TakeFull(out: seq<seq<Request>>, s: string)
    ensures After(out, Take(s, 0)) == Took(out, s, SliceFull)
  {
  }

  lemma {:induction false} TakeStops(out: seq<seq<Request>>, s: string, k: nat)
    requires k > 0 && !NextMsg(s).Requests?
    ensures NextMsg(s).Wait? ==> After(out, Take(s, k)) == Took(out, NextMsg(s).left, NeedMore)
    ensures NextMsg(s).Dead? ==> After(out, Take(s, k)).stop == Failed
  {
    hide NextMsg;
  }

  lemma {:induction false} TakeStep(out: seq<seq<Request>>, s: string, k: nat)
    requires k > 0 && NextMsg(s).Requests?
    ensures After(out + [NextMsg(s).rs], Take(NextMsg(s).after, k - 1)) == After(out, Take(s, k))
  {
    hide NextMsg;
    var t := Take(NextMsg(s).after, k - 1);
    assert (out + [NextMsg(s).rs]) + t.msgs == out + ([NextMsg(s).rs] + t.msgs);
  }

  lemma {:induction false} UpperName(o: Item)
    requires Valid(o) && o.size > 0
    ensures
      var u := o.(elems := o.elems[0 := o.elems[0].(data := Upper(o.elems[0].data))]);
      Valid(u) && View(o).elems != [] && View(u) == Named(View(o))
  {
    var e := o.elems[0];
    HeaderView(e, e.kind, Upper(e.data));
    var u := o.(elems := o.elems[0 := e.(data := Upper(e.data))]);
    assert forall i :: 0 < i < |u.elems| ==> u.elems[i] == o.elems[i];
    assert View(u).elems == Named(View(o)).elems;
  }

  // ---------------------------------------------------------------- fragmentation

  lemma {:induction false} NextCommandExtends(s: string, t: string)
    ensures NextCommand(s).Command? ==>
      NextCommand(s + t) == Command(NextCommand(s).v, NextCommand(s).rest + t)
    ensures NextCommand(s).Fails? ==> NextCommand(s + t) == NextCommand(s)
    ensures NextCommand(s).More? ==> NextCommand(s + t) == NextCommand(NextCommand(s).rest + t)
    decreases |s|
  {
    hide Parse;
    if !Parse(s).Short? {
      ParseExtends(s, t);
      if Parse(s).Done? {
        var n := Parse(s).size;
        assert (s + t)[n..] == s[n..] + t;
        NextCommandExtends(s[n..], t);
      }
    }
  }

  lemma {:induction false} NextMsgExtends(s: string, t: string)
    ensures NextMsg(s).Requests? ==> NextMsg(s + t) == Requests(NextMsg(s).rs, NextMsg(s).after + t)
    ensures NextMsg(s).Dead? ==> NextMsg(s + t) == NextMsg(s)
    ensures NextMsg(s).Wait? ==> NextMsg(s + t) == NextMsg(NextMsg(s).left + t)
  {
    hide NextCommand, Split;
    NextCommandExtends(s, t);
  }

  /** Bytes that arrive later only add messages. */
  lemma {:induction false} AllExtends(s: string, t: string)
    ensures All(s).stop == NeedMore ==> All(s + t) == After(All(s).msgs, All(All(s).rest + t))
    ensures All(s).stop == Failed ==> All(s + t) == All(s)
    decreases |s|
  {
    hide NextMsg, After, Ahead;
    NextMsgExtends(s, t);
    match NextMsg(s)
    case Requests(rs, rest) =>
      AllExtends(rest, t);
      AheadIs(rs, All(rest));
      if All(rest).stop == NeedMore {
        AheadAfter(rs, All(rest).msgs, All(All(rest).rest + t));
      }
    case Wait(left) =>
      AllSame(s + t, left + t);
      AfterNothing(All(left + t));
    case Dead(_) =>
  }

  lemma {:induction false} AllSame(s: string, u: string)
    requires NextMsg(s) == NextMsg(u)
    ensures All(s) == All(u)
  {
    hide NextMsg;
  }

  /** A connection between two `Decode` calls. */
  datatype Conn = Conn(unread: string, completed: bool, broken: bool)

  /** One call: the slots offered, and the bytes a read delivers if there is one. */
  datatype Call = Call(slots: nat, got: string)

  const START: Conn := Conn("", true, false)

  function Arrived(c: Conn, call: Call): string {
    if c.completed && !c.broken then call.got else ""
  }

  /** `Decode` as a function of the connection's state, the contract of `ProxyConn.Decode`. */
  function Called(c: Conn, call: Call): (Conn, seq<seq<Request>>) {
    if c.broken then (c, [])
    else
      var t := Take(c.unread + Arrived(c, call), call.slots);
      if t.stop == Failed then (Conn("", false, true), [])
      else (Conn(t.rest, t.stop == NeedMore, false), t.msgs)
  }

  /** All messages handed out by a sequence of calls, and the state they lead to. */
  function Outputs(c: Conn, calls: seq<Call>): seq<seq<Request>> {
    if calls == [] then []
    else Outputs(c, calls[..|calls| - 1]) + Called(State(c, calls[..|calls| - 1]), calls[|calls| - 1]).1
  }

  function State(c: Conn, calls: seq<Call>): Conn {
    if calls == [] then c else Called(State(c, calls[..|calls| - 1]), calls[|calls| - 1]).0
  }

  /** The bytes delivered on the way, in order: the stream, however it was cut. */
  function Stream(c: Conn, calls: seq<Call>): string {
    if calls == [] then c.unread
    else Stream(c, calls[..|calls| - 1]) + Arrived(State(c, calls[..|calls| - 1]), calls[|calls| - 1])
  }

  /** Putting a message in front commutes with putting several. */
  lemma {:induction false} AheadAfter(rs: seq<Request>, msgs: seq<seq<Request>>, t: Took)
    ensures Ahead(rs, After(msgs, t)) == After([rs] + msgs, t)
  {
    assert [rs] + (msgs + t.msgs) == ([rs] + msgs) + t.msgs;
  }

  lemma {:induction false} AfterNothing(t: Took)
    ensures After([], t) == t
  {
    assert [] + t.msgs == t.msgs;
  }

  /** Some messages taken and the rest of them are all of them. */
  lemma {:induction false} TakeThenAll(s: string, k: nat)
    ensures Take(s, k).stop == SliceFull ==> All(s) == After(Take(s, k).msgs, All(Take(s, k).rest))
    ensures Take(s, k).stop == NeedMore ==> All(s) == Take(s, k) && NextMsg(Take(s, k).rest) == Wait(Take(s, k).rest)
    ensures Take(s, k).stop == Failed ==> All(s) == Take(s, k)
    decreases k
  {
    hide NextMsg, After, Ahead;
    if k == 0 {
      AfterNothing(All(s));
    } else {
      WaitIsFixed(s);
      if NextMsg(s).Requests? {
        var rs, rest := NextMsg(s).rs, NextMsg(s).after;
        TakeThenAll(rest, k - 1);
        var t := Take(rest, k - 1);
        AheadIs(rs, t);
        AheadAfter(rs, t.msgs, All(t.rest));
      }
    }
  }

  lemma AheadIs(rs: seq<Request>, t: Took)
    ensures Ahead(rs, t) == Took([rs] + t.msgs, t.rest, t.stop)
  {
  }

  lemma {:induction false} MoreIsFixed(s: string)
    ensures NextCommand(s).More? ==> NextCommand(NextCommand(s).rest) == NextCommand(s)
    decreases |s|
  {
    hide Parse;
    if Parse(s).Done? {
      MoreIsFixed(s[Parse(s).size..]);
    }
  }

  lemma {:induction false} WaitIsFixed(s: string)
    ensures NextMsg(s).Wait? ==> NextMsg(NextMsg(s).left) == NextMsg(s)
  {
    MoreIsFixed(s);
  }

  /** Where a run stands: what was handed out, and what is left, make up the stream. */
  ghost predicate OnTrack(out: seq<seq<Request>>, c: Conn, stream: string) {
    if c.broken then All(stream).stop == Failed && out <= All(stream).msgs
    else
      && All(stream) == After(out, All(c.unread))
      && (c.completed ==> NextMsg(c.unread) == Wait(c.unread))
  }

  lemma {:induction false} ArrivalKeepsTrack(out: seq<seq<Request>>, c: Conn, stream: string, got: string)
    requires OnTrack(out, c, stream) && !c.broken && (got != "" ==> c.completed)
    ensures All(stream + got) == After(out, All(c.unread + got))
  {
    hide NextMsg;
    if got == "" {
      assert stream + got == stream && c.unread + got == c.unread;
    } else {
      assert out + [] == out;
      AllExtends(stream, got);
    }
  }

  lemma {:induction false} AfterAfter(one: seq<seq<Request>>, two: seq<seq<Request>>, t: Took)
    ensures After(one, After(two, t)) == After(one + two, t)
  {
    assert one + (two + t.msgs) == (one + two) + t.msgs;
  }

  lemma {:induction false} CallKeepsTrack(out: seq<seq<Request>>, c: Conn, stream: string, call: Call)
    requires OnTrack(out, c, stream)
    ensures OnTrack(out + Called(c, call).1, Called(c, call).0, stream + Arrived(c, call))
  {
    hide NextMsg, All, Take;
    var got := Arrived(c, call);
    if c.broken {
      assert out + [] == out && stream + got == stream;
    } else {
      ArrivalKeepsTrack(out, c, stream, got);
      var s := c.unread + got;
      TakeThenAll(s, call.slots);
      var t := Take(s, call.slots);
      if t.stop == Failed {
        assert out + [] == out;
      } else if t.stop == SliceFull {
        AfterAfter(out, t.msgs, All(t.rest));
      } else {
        AllWaiting(t.rest);
        AfterAfter(out, t.msgs, Took([], t.rest, NeedMore));
        assert t.msgs + [] == t.msgs;
      }
    }
  }

  lemma {:induction false} AllWaiting(s: string)
    requires NextMsg(s) == Wait(s)
    ensures All(s) == Took([], s, NeedMore)
  {
    hide NextMsg;
  }

  lemma {:induction false} RunKeepsTrack(calls: seq<Call>)
    ensures OnTrack(Outputs(START, calls), State(START, calls), Stream(START, calls))
  {
    if calls == [] {
      assert NextMsg("") == Wait("");
      assert [] + All("").msgs == All("").msgs;
    } else {
      var init, last := calls[..|calls| - 1], calls[|calls| - 1];
      RunKeepsTrack(init);
      CallKeepsTrack(Outputs(START, init), State(START, init), Stream(START, init), last);
    }
  }

  /**
   Fragmentation independence. On a stream without a malformed item the messages handed
   out depend on its bytes alone: nothing is ever handed out that decoding the whole stream
   would not give, in its order, and once the connection waits for input, everything is.
   */
  lemma {:induction false} FragmentationIndependence(calls: seq<Call>)
    requires All(Stream(START, calls)).stop == NeedMore
    ensures Outputs(START, calls) <= All(Stream(START, calls)).msgs
    ensures State(START, calls).completed ==> Outputs(START, calls) == All(Stream(START, calls)).msgs
  {
    RunKeepsTrack(calls);
    var out, c := Outputs(START, calls), State(START, calls);
    if !c.broken && c.completed {
      hide NextMsg;
      assert All(c.unread).msgs == [];
      assert out + [] == out;
    }
  }

  /** Two ways of cutting the same stream. */
  lemma {:induction false} SameStreamSameMessages(one: seq<Call>, two: seq<Call>)
    requires Stream(START, one) == Stream(START, two) && All(Stream(START, one)).stop == NeedMore
    requires State(START, one).completed && State(START, two).completed
    ensures Outputs(START, one) == Outputs(START, two)
  {
    FragmentationIndependence(one);
    FragmentationIndependence(two);
  }

  // ---------------------------------------------------------------- malformed streams

  /** With enough slots a malformed stream delivered in one piece hands out nothing. */
  lemma {:induction false} TakeMeetsFailure(s: string, k: nat)
    requires All(s).stop == Failed && k > |All(s).msgs|
    ensures Take(s, k).stop == Failed
    decreases k
  {
    hide NextMsg;
    if NextMsg(s).Requests? {
      TakeMeetsFailure(NextMsg(s).after, k - 1);
    }
  }

  /** One read into no slots, then `n` calls with a single slot each. */
  function SingleSlots(s: string, n: nat): (calls: seq<Call>)
    ensures calls != []
  {
    if n == 0 then [Call(0, s)] else SingleSlots(s, n - 1) + [Call(1, "")]
  }

  lemma {:induction false} OneSlot(c: Conn)
    requires !c.broken && !c.completed && All(c.unread).msgs != []
    ensures Called(c, Call(1, "")).0 == Conn(NextMsg(c.unread).after, false, false)
    ensures NextMsg(c.unread).Requests? && Called(c, Call(1, "")).1 == [NextMsg(c.unread).rs]
    ensures All(c.unread) == Ahead(NextMsg(c.unread).rs, All(NextMsg(c.unread).after))
  {
    hide NextMsg;
    var u := c.unread;
    assert u + "" == u;
    var rs, rest := NextMsg(u).rs, NextMsg(u).after;
    assert Take(rest, 0) == Took([], rest, SliceFull);
    assert Take(u, 1) == Took([rs] + [], rest, SliceFull);
    assert [rs] + [] == [rs];
  }

  lemma {:induction false} Appended(c: Conn, calls: seq<Call>, call: Call)
    ensures Outputs(c, calls + [call]) == Outputs(c, calls) + Called(State(c, calls), call).1
    ensures State(c, calls + [call]) == Called(State(c, calls), call).0
    ensures Stream(c, calls + [call]) == Stream(c, calls) + Arrived(State(c, calls), call)
  {
    hide Called;
    var all := calls + [call];
    assert all[..|all| - 1] == calls;
  }

  /** Single slots hand out one message after the other. */
  lemma {:induction false} OneByOne(s: string, n: nat)
    requires n <= |All(s).msgs|
    ensures
      var calls := SingleSlots(s, n);
      var c := State(START, calls);
      && Outputs(START, calls) == All(s).msgs[..n] && Stream(START, calls) == s && !c.broken && !c.completed
      && All(s) == After(All(s).msgs[..n], All(c.unread))
  {
    hide NextMsg, All, Outputs, State, Stream;
    if n == 0 {
      Appended(START, [], Call(0, s));
      assert [] + [Call(0, s)] == [Call(0, s)] && "" + s == s;
      Nothing();
      AfterNothing(All(s));
    } else {
      OneByOne(s, n - 1);
      var init := SingleSlots(s, n - 1);
      var c := State(START, init);
      Appended(START, init, Call(1, ""));
      OneSlot(c);
      var done, rs := All(s).msgs[..n - 1], NextMsg(c.unread).rs;
      assert done + ([rs] + All(NextMsg(c.unread).after).msgs) == (done + [rs]) + All(NextMsg(c.unread).after).msgs;
      assert All(s).msgs[..n] == done + [rs];
      assert s + "" == s;
    }
  }

  lemma Nothing()
    ensures Outputs(START, []) == [] && State(START, []) == START && Stream(START, []) == ""
  {
  }

  lemma {:induction false} WholeInOneRead(s: string, k: nat)
    requires All(s).stop == Failed && k > |All(s).msgs|
    ensures Outputs(START, [Call(k, s)]) == [] && Stream(START, [Call(k, s)]) == s && State(START, [Call(k, s)]).broken
  {
    hide NextMsg, All, Take, Outputs, State, Stream;
    TakeMeetsFailure(s, k);
    Appended(START, [], Call(k, s));
    Nothing();
    assert [] + [Call(k, s)] == [Call(k, s)] && "" + s == s;
  }

  /** The connection has nothing more to hand out of what it was given: it waits, or it has failed. */
  predicate Ended(calls: seq<Call>) { State(START, calls).completed || State(START, calls).broken }

  /** Two ways of reading the same stream to its end that hand out different messages. */
  ghost predicate CutsDiffer(s: string, one: seq<Call>, two: seq<Call>) {
    && Stream(START, one) == s == Stream(START, two) && Ended(one) && Ended(two)
    && Outputs(START, one) != Outputs(START, two)
  }

  /** Single slots hand out every message before they meet the failure. */
  lemma {:induction false} OneByOneFails(s: string)
    requires All(s).stop == Failed
    ensures
      var calls := SingleSlots(s, |All(s).msgs|) + [Call(1, "")];
      Outputs(START, calls) == All(s).msgs && Stream(START, calls) == s && State(START, calls).broken
  {
    hide NextMsg, All, Outputs, State, Stream, Take;
    var n := |All(s).msgs|;
    var init := SingleSlots(s, n);
    OneByOne(s, n);
    assert All(s).msgs[..n] == All(s).msgs;
    var c := State(START, init);
    assert |All(c.unread).msgs| == 0 && All(c.unread).stop == Failed;
    TakeMeetsFailure(c.unread, 1);
    Appended(START, init, Call(1, ""));
    assert c.unread + "" == c.unread && s + "" == s && All(s).msgs + [] == All(s).msgs;
  }

  /**
   Slots alone decide it: read in one piece, a malformed stream with messages in front is
   handed out in full before it fails, or fails with nothing handed out.
   */
  lemma {:induction false} SlotsMatter(s: string)
    requires All(s).stop == Failed && All(s).msgs != []
    ensures exists one, two ::
      CutsDiffer(s, one, two) && Outputs(START, one) == [] && Outputs(START, two) == All(s).msgs
  {
    hide NextMsg, All, Outputs, State, Stream;
    var n := |All(s).msgs|;
    var one, two := [Call(n + 1, s)], SingleSlots(s, n) + [Call(1, "")];
    WholeInOneRead(s, n + 1);
    OneByOneFails(s);
    assert CutsDiffer(s, one, two);
  }

  /**
   The exact limit of fragmentation independence, reads and slots taken together: reading a
   stream to its end hands out the same messages however it is read if and only if the stream
   has no malformed item, or has one before its first message.
   */
  lemma {:induction false} ReadingMattersExactly(s: string)
    ensures All(s).stop == NeedMore || All(s).msgs == [] <==> !exists one, two :: CutsDiffer(s, one, two)
  {
    if All(s).stop == Failed && All(s).msgs != [] {
      SlotsMatter(s);
    } else {
      forall one, two | CutsDiffer(s, one, two)
        ensures false
      {
        EndsAlike(one);
        EndsAlike(two);
      }
    }
  }

  /** Runs to the end of a stream that is well formed, or malformed from the start. */
  lemma {:induction false} EndsAlike(calls: seq<Call>)
    requires Ended(calls)
    requires All(Stream(START, calls)).stop == NeedMore || All(Stream(START, calls)).msgs == []
    ensures Outputs(START, calls) == All(Stream(START, calls)).msgs
  {
    hide NextMsg, Outputs, State, Stream;
    RunKeepsTrack(calls);
    if !State(START, calls).broken {
      assert All(State(START, calls).unread).msgs == [];
    }
  }

  // ---------------------------------------------------------------- at least so many slots

  /** Every call offers at least `k` slots. */
  ghost predicate Offers(calls: seq<Call>, k: nat) { forall i :: 0 <= i < |calls| ==> calls[i].slots >= k }

  /** A beginning of the stream has a message and waits for more: the message can arrive before the malformed item. */
  ghost predicate ArrivesEarly(s: string) {
    exists x :: x <= s && All(x).stop == NeedMore && All(x).msgs != []
  }

  lemma {:induction false} BeginningHasNoMore(x: string, s: string)
    requires x <= s
    ensures |All(x).msgs| <= |All(s).msgs|
  {
    hide NextMsg, All;
    assert s == x + s[|x|..];
    AllExtends(x, s[|x|..]);
  }

  lemma {:induction false} TakeFillsSlots(s: string, k: nat)
    ensures Take(s, k).stop == SliceFull ==> |Take(s, k).msgs| == k
    decreases k
  {
    hide NextMsg;
    if k > 0 && NextMsg(s).Requests? {
      TakeFillsSlots(NextMsg(s).after, k - 1);
    }
  }

  lemma {:induction false} LastCall(calls: seq<Call>)
    requires calls != []
    ensures
      var init, last := calls[..|calls| - 1], calls[|calls| - 1];
      var c := State(START, init);
      && Outputs(START, calls) == Outputs(START, init) + Called(c, last).1 && State(START, calls) == Called(c, last).0
      && Stream(START, calls) == Stream(START, init) + Arrived(c, last)
  {
  }

  /** With more slots than messages, a stream none of whose messages can come early hands out nothing. */
  lemma {:induction false} QuietRun(calls: seq<Call>, s: string, k: nat)
    requires Stream(START, calls) <= s && Offers(calls, k) && |All(s).msgs| < k && !ArrivesEarly(s)
    ensures Outputs(START, calls) == []
  {
    hide NextMsg, All, Take, Outputs, State, Stream, ArrivesEarly;
    if calls == [] {
      Nothing();
    } else {
      var init, last := calls[..|calls| - 1], calls[|calls| - 1];
      LastCall(calls);
      QuietRun(init, s, k);
      QuietCall(State(START, init), last, Stream(START, init), s, k, init);
    }
  }

  lemma {:induction false} QuietCall(c: Conn, call: Call, sofar: string, s: string, k: nat, init: seq<Call>)
    requires c == State(START, init) && sofar == Stream(START, init) && Outputs(START, init) == []
    requires sofar + Arrived(c, call) <= s && call.slots >= k > |All(s).msgs| && !ArrivesEarly(s)
    ensures Called(c, call).1 == []
  {
    hide NextMsg, All, Take, Outputs, State, Stream;
    RunKeepsTrack(init);
    CallKeepsTrack([], c, sofar, call);
    var (now, out) := Called(c, call);
    var x := sofar + Arrived(c, call);
    assert [] + out == out;
    BeginningHasNoMore(x, s);
    if !c.broken {
      TakeFillsSlots(c.unread + Arrived(c, call), call.slots);
      if now.completed {
        AllWaiting(now.unread);
        assert All(x) == After(out, All(now.unread)) && out + [] == out;
      }
    }
  }

  /** Slots that are filled before the malformed item is met. */
  lemma {:induction false} SlotsRunOut(s: string, k: nat) returns (one: seq<Call>, two: seq<Call>)
    requires All(s).stop == Failed && All(s).msgs != [] && |All(s).msgs| >= k
    ensures CutsDiffer(s, one, two) && Offers(one, k) && Offers(two, k)
  {
    hide NextMsg, All, Take, Outputs, State, Stream;
    var n := |All(s).msgs|;
    var first, later := Call(n, s), Call(n + 1, "");
    one, two := [Call(n + 1, s)], [first] + [later];
    WholeInOneRead(s, n + 1);
    TakeExactly(s);
    Appended(START, [], first);
    assert [] + [first] == [first] && "" + s == s;
    Nothing();
    var c := State(START, [first]);
    assert c == Conn(Take(s, n).rest, false, false) && Outputs(START, [first]) == [] + All(s).msgs;
    assert [] + All(s).msgs == All(s).msgs;
    TakeMeetsFailure(c.unread, n + 1);
    Appended(START, [first], later);
    assert c.unread + "" == c.unread && s + "" == s && All(s).msgs + [] == All(s).msgs;
  }

  /** As many slots as messages: all are taken, and what is left fails at once. */
  lemma {:induction false} TakeExactly(s: string)
    requires All(s).stop == Failed
    ensures
      var t := Take(s, |All(s).msgs|);
      t.msgs == All(s).msgs && t.stop == SliceFull && All(t.rest).stop == Failed && All(t.rest).msgs == []
  {
    TakeAllOf(s, |All(s).msgs|);
    TakeThenAll(s, |All(s).msgs|);
  }

  lemma {:induction false} TakeAllOf(s: string, k: nat)
    requires k <= |All(s).msgs|
    ensures Take(s, k).stop == SliceFull && Take(s, k).msgs == All(s).msgs[..k]
    decreases k
  {
    hide NextMsg;
    if k > 0 {
      TakeAllOf(NextMsg(s).after, k - 1);
    }
  }

  /**
   The messages of `x` are handed out if the malformed item arrives after them, and dropped if it
   arrives with them.
   */
  lemma {:induction false} ReadsDiffer(x: string, rest: string, slots: nat)
    requires All(x).stop == NeedMore && All(x).msgs != [] && All(x + rest).stop == Failed &&
      slots > |All(x + rest).msgs|
    ensures
      var one, two := [Call(slots, x + rest)], [Call(slots, x), Call(slots, rest)];
      CutsDiffer(x + rest, one, two) && Outputs(START, one) == [] && Outputs(START, two) == All(x).msgs
  {
    hide NextMsg, All, Take, Outputs, State, Stream;
    var s := x + rest;
    var first, later := Call(slots, x), Call(slots, rest);
    assert [first, later] == [first] + [later];
    WholeInOneRead(s, slots);
    BeginningHasNoMore(x, s);
    TakeWaits(x, slots);
    Appended(START, [], first);
    assert [] + [first] == [first] && "" + x == x;
    Nothing();
    var c := State(START, [first]);
    assert c == Conn(All(x).rest, true, false) && Outputs(START, [first]) == [] + All(x).msgs;
    assert [] + All(x).msgs == All(x).msgs;
    AllExtends(x, rest);
    TakeMeetsFailure(c.unread + rest, slots);
    Appended(START, [first], later);
    assert All(x).msgs + [] == All(x).msgs;
  }

  lemma {:induction false} TakeWaits(x: string, k: nat)
    requires All(x).stop == NeedMore && k > |All(x).msgs|
    ensures Take(x, k) == All(x)
    decreases k
  {
    hide NextMsg;
    if NextMsg(x).Requests? {
      TakeWaits(NextMsg(x).after, k - 1);
    }
  }

  /**
   The same with the slots bounded below. Calls that offer at least `k` slots each can hand out
   different messages of a stream read to its end if and only if it is malformed behind a
   message and either the messages can fill the slots or one can arrive before the malformed
   item. With more slots than messages it is the cutting into reads alone that decides.
   */
  lemma {:induction false} CuttingMattersExactly(s: string, k: nat)
    ensures
      (exists one, two :: CutsDiffer(s, one, two) && Offers(one, k) && Offers(two, k)) <==>
      All(s).stop == Failed && All(s).msgs != [] && (|All(s).msgs| >= k || ArrivesEarly(s))
  {
    hide NextMsg, All, Outputs, State, Stream;
    if All(s).stop == Failed && All(s).msgs != [] {
      if |All(s).msgs| >= k {
        var one, two := SlotsRunOut(s, k);
      } else if ArrivesEarly(s) {
        var x :| x <= s && All(x).stop == NeedMore && All(x).msgs != [];
        assert x + s[|x|..] == s;
        ReadsDiffer(x, s[|x|..], k);
        var one, two := [Call(k, s)], [Call(k, x), Call(k, s[|x|..])];
        assert Offers(one, k) && Offers(two, k);
      } else {
        forall one, two | CutsDiffer(s, one, two) && Offers(one, k) && Offers(two, k)
          ensures false
        {
          QuietRun(one, s, k);
          QuietRun(two, s, k);
        }
      }
    } else {
      ReadingMattersExactly(s);
    }
  }

  const PING: string := "PING\r\n"

  /** An array header that is no number. */
  const GARBAGE: string := "*x\r\n"

  lemma {:induction false} PingParses(rest: string)
    ensures Parse(PING + rest) == Done(Resp('*', Itoa(1), [InlineWord("PING")]), 6)
  {
    hide IndexCrlf, Itoa;
    var s := PING + rest;
    assert PING == "PING" + "\r\n" && s == "PING" + "\r\n" + rest;
    assert NoCrlf("PING");
    IndexAfterText("PING", rest);
    assert s[..6] == PING;
    Words.FieldsInWord("PING", "\r\n", "");
    assert "" + "PING" == "PING" && "\r\n"[1..] == "\n" && "\n"[1..] == "";
    assert Fields(PING) == ["PING"];
  }

  lemma {:induction false} GarbageFails()
    ensures Parse(GARBAGE) == Bad
  {
    hide IndexCrlf;
    assert GARBAGE == "*x" + "\r\n" + "";
    assert NoCrlf("*x");
    IndexAfterText("*x", "");
    assert GARBAGE[1..2] == "x" && !IsDigit("x"[0]) && Unsigned("x") == "x";
  }

  /** One word, then nothing or something malformed. */
  lemma {:induction false} WordFirst(s: string)
    requires Parse(s).Done? && |Parse(s).value.elems| == 1
    ensures
      var rest := s[Parse(s).size..];
      && (Parse(rest) == Bad ==> All(s).stop == Failed && |All(s).msgs| == 1)
      && (rest == "" ==> All(s).stop == NeedMore && |All(s).msgs| == 1)
  {
    var rest := s[Parse(s).size..];
    assert Parse("") == Short;
    hide Parse, Upper;
    assert Parse(rest) == Bad ==> NextMsg(rest).Dead?;
    assert rest == "" ==> NextMsg(rest) == Wait("");
    assert NextMsg(s).Requests? && NextMsg(s).after == rest;
    hide NextMsg;
    assert Parse(rest) == Bad ==> All(rest) == Took([], "", Failed);
    assert rest == "" ==> All(rest) == Took([], "", NeedMore);
  }

  /**
   With the two slots a connection starts with, the client's PING is dropped if the malformed
   header arrives with it, and handed out if it arrives after it.
   */
  lemma {:induction false} PingMayBeDropped()
    ensures
      var together, apart := [Call(2, PING + GARBAGE)], [Call(2, PING), Call(2, GARBAGE)];
      && CutsDiffer(PING + GARBAGE, together, apart)
      && Outputs(START, together) == [] && |Outputs(START, apart)| == 1
  {
    hide Parse, All, CutsDiffer, Outputs;
    PingParses("");
    PingParses(GARBAGE);
    GarbageFails();
    assert PING + "" == PING && PING[6..] == "" && (PING + GARBAGE)[6..] == GARBAGE;
    WordFirst(PING);
    WordFirst(PING + GARBAGE);
    ReadsDiffer(PING, GARBAGE, 2);
  }
}
