/**
 Reading replies off a backend connection: the retry loop of `Read` in
 proxy/proto/redis/node_conn.go.
 */
module NodeConn {
  import opened Resp
  import opened ReadBuffer
  import opened RespReader

  /** That a read ended as the parse of what was coming says, `left` being what is still to come. */
  ghost predicate NextIs(p: Parsed, o: Item, e: Result, coming: string, left: string)
    requires Valid(o)
  {
    match p
    case Done(v, n) => e == Ok && View(o) == v && n <= |coming| && left == coming[n..]
    case Short => e == Io(EOF)
    case Bad => e == Malformed
    case Crash => e == Panic
  }

  class NodeConn {
    const br: Reader
    /** What the backend has sent and nobody has read; after it the connection ends. */
    var wire: string

    constructor (br: Reader, wire: string)
      ensures this.br == br && this.wire == wire
    {
      this.br, this.wire := br, wire;
    }

    /** All that is still to be read. */
    ghost function Coming(): string
      requires br.Valid()
      reads this, br, br.b, br.b.buf
    {
      br.b.Unread() + wire
    }

    /** One read from the connection, which delivers as much as it likes of what there is room for. */
    method More() returns (e: IoError)
      requires br.Valid() && br.err == NoError
      modifies this`wire, br`err, br.b, br.b.buf
      ensures br.Valid() && (fresh(br.b.buf) || br.b.buf == old(br.b.buf)) && e == NoError
      ensures Coming() == old(Coming())
      ensures if old(wire) == "" then br.err == EOF && wire == "" else br.err == NoError && |wire| < |old(wire)|
    {
      RoomIsPositive(br.b);
      if wire == "" {
        e := br.Read("", EOF);
      } else {
        var n: nat :| 1 <= n <= |wire| && n <= br.b.Room();
        var got := wire[..n];
        assert wire == got + wire[n..];
        wire := wire[n..];
        e := br.Read(got, NoError);
      }
    }

    /** What a decode makes of the bytes at hand it makes of all that is coming. */
    method Attempt(was: Item) returns (o: Item, e: Result)
      requires br.Valid() && Valid(was)
      modifies br.b`r
      ensures br.Valid() && Valid(o)
      ensures br.err != NoError ==> e == Io(br.err) && Coming() == old(Coming())
      ensures br.err == NoError && e != Full ==> NextIs(Parse(old(Coming())), o, e, old(Coming()), Coming())
      ensures br.err == NoError && e == Full ==> Parse(br.b.Unread()).Short? && Coming() == old(Coming())
    {
      hide Parse, View, Valid;
      ghost var unread, start := br.b.Unread(), br.b.r;
      o, e := RespReader.Decode(br, was);
      if br.err == NoError && e != Full {
        ParseExtends(unread, wire);
      }
      if e == Ok || e == Full {
        UnreadAfter(br.b, start, unread);
        Behind(unread, wire, br.b.r - start);
      }
    }

    /**
     `Read`: decode, and as long as the reply is not all there read more. However the bytes
     arrive, the result is the next reply of all that is coming, and just its bytes are gone.
     */
    method Read(was: Item) returns (o: Item, e: Result)
      requires br.Valid() && Valid(was) && br.err == NoError
      modifies this`wire, br`err, br.b, br.b.buf
      ensures br.Valid() && Valid(o) && (fresh(br.b.buf) || br.b.buf == old(br.b.buf))
      ensures NextIs(Parse(old(Coming())), o, e, old(Coming()), Coming()) && (e == Ok ==> br.err == NoError)
    {
      hide Parse, View, Valid;
      ghost var all := Coming();
      o := was;
      while true
        invariant br.Valid() && Valid(o) && (fresh(br.b.buf) || br.b.buf == old(br.b.buf))
        invariant Coming() == all
        invariant br.err == NoError || (br.err == EOF && Parse(all).Short?)
        decreases |wire|, if br.err == NoError then 1 else 0
      {
        o, e := Attempt(o);
        if e != Full {
          return;
        }
        assert wire == "" ==> br.b.Unread() + wire == br.b.Unread();
        var ioe := More();
      }
    }

    /** The reading half of a batch: one `Read` for each of `n` requests, until one fails. */
    method ReadBatch(n: nat) returns (replies: seq<Item>, e: Result)
      requires br.Valid() && br.err == NoError
      modifies this`wire, br`err, br.b, br.b.buf
      ensures br.Valid()
      ensures match ParseAll(old(Coming()), n)
        case DoneAll(vs, m) => e == Ok && Views(replies, vs) && Coming() == old(Coming())[m..]
        case Stopped(_) => e != Ok
    {
      hide Parse, ParseAll, View, Valid, Partway, Views;
      ghost var all, vs := Coming(), [];
      ghost var m: nat := 0;
      replies := [];
      NoViews();
      NothingRead(all, n);
      for k := 0 to n
        invariant br.Valid() && br.err == NoError && (fresh(br.b.buf) || br.b.buf == old(br.b.buf))
        invariant |vs| == k && Views(replies, vs) && m <= |all| && Coming() == all[m..]
        invariant Partway(vs, m, Coming(), n - k, ParseAll(all, n))
      {
        ghost var u := Coming();
        var o;
        NewIsValid();
        o, e := Read(NEW_ITEM);
        if e != Ok {
          Fails(vs, m, u, n - k, ParseAll(all, n));
          return;
        }
        OneRead(all, vs, m, u, n - k, ParseAll(all, n));
        OneView(replies, vs, o);
        vs, m := vs + [View(o)], m + Parse(u).size;
        replies := replies + [o];
      }
      AllRead(vs, m, Coming(), ParseAll(all, n));
      e := Ok;
    }
  }

  lemma {:induction false} OneRead(all: string, vs: seq<Resp>, m: nat, u: string, k: nat, whole: ParsedAll)
    requires m <= |all| && u == all[m..] && k > 0 && Parse(u).Done? && Partway(vs, m, u, k, whole)
    ensures
      var v, next := Parse(u).value, m + Parse(u).size;
      next <= |all| && u[Parse(u).size..] == all[next..] && Partway(vs + [v], next, all[next..], k - 1, whole)
  {
    hide Parse, Partway;
    PartwayStep(vs, m, u, k, whole);
  }

  lemma NoViews()
    ensures Views([], [])
  {
  }

  lemma OneView(items: seq<Item>, vs: seq<Resp>, o: Item)
    requires Views(items, vs) && Valid(o)
    ensures Views(items + [o], vs + [View(o)])
  {
    hide Valid, View;
  }

  lemma NothingRead(all: string, n: nat)
    ensures Partway([], 0, all, n, ParseAll(all, n)) && all[0..] == all
  {
    hide Parse;
    if ParseAll(all, n).DoneAll? {
      assert [] + ParseAll(all, n).values == ParseAll(all, n).values;
    }
  }

  lemma NewIsValid()
    ensures Valid(NEW_ITEM)
  {
  }

  lemma {:induction false} Fails(vs: seq<Resp>, m: nat, u: string, k: nat, whole: ParsedAll)
    requires k > 0 && !Parse(u).Done? && Partway(vs, m, u, k, whole)
    ensures whole.Stopped?
  {
    hide Parse;
  }

  lemma {:induction false} AllRead(vs: seq<Resp>, m: nat, u: string, whole: ParsedAll)
    requires Partway(vs, m, u, 0, whole)
    ensures whole == DoneAll(vs, m)
  {
    hide Parse;
    assert vs + [] == vs;
  }

  /** Replies a backend sends one after another are read one after another. */
  lemma {:induction false} SentRepliesAreRead(vs: seq<Resp>, rest: string)
    requires forall i :: 0 <= i < |vs| ==> WellFormed(vs[i])
    ensures ParseAll(EncodeAll(vs) + rest, |vs|) == DoneAll(vs, |EncodeAll(vs)|)
  {
    hide Parse, WellFormed, EncodeAll;
    var v := Resp('*', "", vs);
    RoundTripFrom(v, 0, rest);
    assert v.elems[0..] == vs;
  }

  lemma Behind(s: string, t: string, n: int)
    ensures 0 <= n <= |s| ==> (s + t)[n..] == s[n..] + t
  {
  }
}
