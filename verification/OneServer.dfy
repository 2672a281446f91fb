/**
 What a client of the Redis proxy is promised, in the client's own words: names in any
 spelling, keys and values as bytes, and one server that holds everything. Nothing here is
 said through the proxy's own reading of a command.
 */
module OneServer {
  import opened Common
  import opened Decimal
  import Words
  import opened Resp
  import opened Commands
  import opened Sharding
  import opened Merging
  import opened Pipeline
  import RespReader
  import opened ProxyConn
  import opened ClientSession
  import opened Backends
  import NodePipe

  /** A command: its name, the way the client spelled it, and its arguments. */
  datatype Cmd = Cmd(name: string, spelled: string, args: seq<string>)

  /** What the client sends, and the same with the name in upper case. */
  function Typed(c: Cmd): Value { Array(Bulks([c.spelled] + c.args)) }

  function Meant(c: Cmd): Value { Array(Bulks([c.name] + c.args)) }

  const SPLIT: set<string> := {"MGET", "MSET", "DEL", "EXISTS"}

  /** The commands the promise is about: see `LegalCommand`. Lengths fit the original's integers. */
  ghost predicate Promised(c: Cmd) {
    && NoLower(c.name) && Spells(c.spelled, c.name) && c.args != [] && Legal(Typed(c))
    && (c.name in SPLIT || SingleKey(c.name))
    && (c.name == "MSET" ==> |c.args| % 2 == 0) && (c.name == "SET" ==> |c.args| == 2)
  }

  // ---------------------------------------------------------------- the server

  function SetPairs(args: seq<string>, st: Store): Store {
    if |args| < 2 then st else SetPairs(args[2..], st[args[0] := args[1]])
  }

  function Occurring(args: seq<string>, st: Store): nat {
    if args == [] then 0 else (if args[0] in st then 1 else 0) + Occurring(args[1..], st)
  }

  function Cell(st: Store, k: string): Option<string> { if k in st then Some(st[k]) else None }

  function ValueAt(st: Store, k: string): Value { if k in st then BulkString(st[k]) else NullBulk }

  /** Data after a command. A command on one key works on what is stored under its first argument. */
  function After(other: Semantics, c: Cmd, st: Store): Store
    requires c.args != []
  {
    if c.name == "MGET" || c.name == "EXISTS" || (c.name == "GET" && |c.args| == 1) then st
    else if c.name == "MSET" then SetPairs(c.args, st)
    else if c.name == "DEL" then map k | k in st && k !in c.args :: st[k]
    else
      var k := c.args[0];
      match other(Stored(Meant(c)), Cell(st, k)).0
      case Some(v) => st[k := v]
      case None => map j | j in st && j != k :: st[j]
  }

  /** The bytes of the reply. */
  function Says(other: Semantics, c: Cmd, st: Store): string
    requires c.args != []
  {
    if c.name == "MGET" then
      Wire(Array(seq(|c.args|, i requires 0 <= i < |c.args| => ValueAt(st, c.args[i]))))
    else if c.name == "GET" && |c.args| == 1 then Wire(ValueAt(st, c.args[0]))
    else if c.name == "MSET" then "+OK\r\n"
    else if c.name == "DEL" then Wire(Integer(|set k | k in c.args && k in st|))
    else if c.name == "EXISTS" then Wire(Integer(Occurring(c.args, st)))
    else Encode(other(Stored(Meant(c)), Cell(st, c.args[0])).1)
  }

  // ---------------------------------------------------------------- spelling

  /** A command as it is stored: the name, and behind it the arguments. */
  lemma {:induction false} StoredWords(name: string, args: seq<string>)
    ensures
      var v := Stored(Array(Bulks([name] + args)));
      && v.kind == '*' && v.data == Itoa(|args| + 1)
      && v.elems == [Stored(BulkString(name))] + StoredAll(Bulks(args))
  {
    hide Stored, Itoa;
    var items := Bulks([name] + args);
    ArrayStored(items);
    assert items == [BulkString(name)] + Bulks(args);
    var elems := [Stored(BulkString(name))] + StoredAll(Bulks(args));
    forall i | 0 <= i < |items|
      ensures Stored(Array(items)).elems[i] == elems[i]
    {
      assert Stored(Array(items)).elems[i] == Stored(items[i]);
    }
  }

  lemma {:induction false} UpperStored(s: string, name: string)
    requires NoLower(name) && Spells(s, name)
    ensures Stored(BulkString(s)).(data := Upper(Stored(BulkString(s)).data)) == Stored(BulkString(name))
  {
    UpperFindsName(s, name);
    UpperBulk(s);
  }

  /** However its name is spelled, a command is read as the one that was meant. */
  lemma {:induction false} NamedIsMeant(c: Cmd)
    requires NoLower(c.name) && Spells(c.spelled, c.name)
    ensures Stored(Typed(c)).elems != [] && Named(Stored(Typed(c))) == Stored(Meant(c))
  {
    hide Stored, StoredAll, Upper, Itoa, Spells, NoLower, Bulks;
    StoredWords(c.spelled, c.args);
    StoredWords(c.name, c.args);
    UpperStored(c.spelled, c.name);
    assert Named(Stored(Typed(c))).elems == Stored(Meant(c)).elems;
  }

  // ---------------------------------------------------------------- the proxy's commands are these

  /** Arguments are read as the client wrote them. */
  lemma {:induction false} KeysAre(args: seq<string>)
    ensures Keys(StoredAll(Bulks(args))) == args
  {
    hide Payload, Stored;
    forall i | 0 <= i < |args|
      ensures Keys(StoredAll(Bulks(args)))[i] == args[i]
    {
      PayloadOfBulk(args[i]);
    }
  }

  lemma {:induction false} SetAllAre(args: seq<string>, st: Store)
    ensures SetAll(StoredAll(Bulks(args)), st) == SetPairs(args, st)
  {
    hide Payload, Stored;
    if |args| >= 2 {
      PayloadOfBulk(args[0]);
      PayloadOfBulk(args[1]);
      SetAllAre(args[2..], st[args[0] := args[1]]);
      assert StoredAll(Bulks(args))[2..] == StoredAll(Bulks(args[2..]));
    }
  }

  lemma {:induction false} CountsAre(args: seq<string>, st: Store)
    ensures CountPresent(args, st) == Occurring(args, st)
  {
    if args != [] {
      CountsAre(args[1..], st);
    }
  }

  function ValuesAt(args: seq<string>, st: Store): (vs: seq<Value>)
    ensures |vs| == |args| && forall i :: 0 <= i < |args| ==> vs[i] == ValueAt(st, args[i])
  {
    seq(|args|, i requires 0 <= i < |args| => ValueAt(st, args[i]))
  }

  lemma {:induction false} ValuesAre(args: seq<string>, st: Store)
    ensures Values(args, st) == StoredAll(ValuesAt(args, st))
  {
  }

  lemma {:induction false} Encodings(args: seq<string>, n: int, st: Store)
    ensures Encode(Resp('*', Itoa(|args|), Values(args, st))) == Wire(Array(ValuesAt(args, st)))
    ensures Encode(OK_REPLY) == "+OK\r\n" && Encode(IntReply(n)) == Wire(Integer(n))
    ensures forall k :: Encode(ValueReply(Lookup(st, k))) == Wire(ValueAt(st, k))
  {
    hide Encode, Wire;
    ValuesAre(args, st);
    StoredEncodesToWire(Array(ValuesAt(args, st)));
    StoredEncodesToWire(Integer(n));
    StoredEncodesToWire(SimpleString("OK"));
    assert Wire(SimpleString("OK")) == "+OK\r\n" by { OkWire(); }
    forall k
      ensures Encode(ValueReply(Lookup(st, k))) == Wire(ValueAt(st, k))
    {
      StoredEncodesToWire(ValueAt(st, k));
    }
  }

  lemma OkWire()
    ensures Wire(SimpleString("OK")) == "+OK\r\n"
  {
  }

  /** The names that are compared with, told apart. */
  lemma {:induction false} NameIs(c: Cmd)
    ensures Stored(Meant(c)).elems != []
    ensures
      var data := Stored(Meant(c)).elems[0].data;
      && (data == MGET <==> c.name == "MGET") && (data == MSET <==> c.name == "MSET")
      && (data == DEL <==> c.name == "DEL") && (data == EXISTS <==> c.name == "EXISTS")
      && (data == GET <==> c.name == "GET") && (data == SET <==> c.name == "SET")
  {
    hide Stored, StoredAll, Bulks, Itoa;
    StoredWords(c.name, c.args);
    NamesStored();
    SameBulk(c.name, "MGET");
    SameBulk(c.name, "MSET");
    SameBulk(c.name, "DEL");
    SameBulk(c.name, "EXISTS");
    SameBulk(c.name, "GET");
    SameBulk(c.name, "SET");
  }

  lemma NotEval(name: string)
    requires SingleKey(name)
    ensures name != "EVAL"
  {
  }

  /** What one server does, said through the proxy's own reading, is what it does in words. */
  ghost predicate InWords(other: Semantics, c: Cmd, st: Store)
    requires c.args != []
  {
    var v := Stored(Meant(c));
    v.elems != [] && ServerStore(other, v, st) == After(other, c, st)
    && Encode(ServerReply(other, v, st)) == Says(other, c, st)
  }

  lemma {:induction false} SplitArgs(c: Cmd)
    requires c.args != []
    ensures Stored(Meant(c)).elems != [] && Stored(Meant(c)).elems[1..] == StoredAll(Bulks(c.args))
    ensures Keys(Stored(Meant(c)).elems[1..]) == c.args
  {
    hide Stored, StoredAll, Bulks, Itoa, Keys;
    StoredWords(c.name, c.args);
    assert Stored(Meant(c)).elems[1..] == StoredAll(Bulks(c.args));
    KeysAre(c.args);
  }

  lemma {:induction false} PresentAre(args: seq<string>, st: Store)
    ensures Present(args, st) == set k | k in args && k in st
    ensures st - Present(args, st) == map k | k in st && k !in args :: st[k]
  {
  }

  lemma {:induction false} SplitStore(other: Semantics, c: Cmd, st: Store)
    requires c.args != [] && c.name in SPLIT
    ensures Stored(Meant(c)).elems != [] && ServerStore(other, Stored(Meant(c)), st) == After(other, c, st)
  {
    hide Stored, StoredAll, Bulks, Itoa, Payload, Keys, Meant, Sharding.Next;
    SplitArgs(c);
    NameIs(c);
    SetAllAre(c.args, st);
    hide SetPairs, SetAll, Present;
    PresentAre(c.args, st);
  }

  lemma {:induction false} SplitReply(other: Semantics, c: Cmd, st: Store)
    requires c.args != [] && c.name in SPLIT
    ensures Stored(Meant(c)).elems != []
    ensures Encode(ServerReply(other, Stored(Meant(c)), st)) == Says(other, c, st)
  {
    hide Stored, StoredAll, Bulks, Itoa, Payload, Keys, Meant, Encode, Wire, Reply, IntReply, Present, Values;
    SplitArgs(c);
    NameIs(c);
    CountsAre(c.args, st);
    hide Occurring, CountPresent;
    PresentAre(c.args, st);
    Encodings(c.args, if c.name == "DEL" then |Present(c.args, st)| else CountPresent(c.args, st), st);
    assert ValuesAt(c.args, st) == seq(|c.args|, i requires 0 <= i < |c.args| => ValueAt(st, c.args[i]));
  }

  lemma {:induction false} SplitInWords(other: Semantics, c: Cmd, st: Store)
    requires c.args != [] && c.name in SPLIT
    ensures InWords(other, c, st)
  {
    hide Stored, Meant, Encode, ServerStore, ServerReply, After, Says;
    SplitStore(other, c, st);
    SplitReply(other, c, st);
  }

  lemma {:induction false} SingleArgs(c: Cmd)
    requires c.args != [] && SingleKey(c.name)
    ensures |Stored(Meant(c)).elems| == |c.args| + 1 && Key(Stored(Meant(c))) == c.args[0]
  {
    NotEval(c.name);
    hide Stored, StoredAll, Itoa, SingleKey, Key;
    StoredWords(c.name, c.args);
    assert Bulks([c.name] + c.args) == [BulkString(c.name), BulkString(c.args[0])] + Bulks(c.args[1..]);
    KeyOfCommand(c.name, c.args[0], Bulks(c.args[1..]));
  }

  lemma {:induction false} SingleInWords(other: Semantics, c: Cmd, st: Store)
    requires c.args != [] && SingleKey(c.name) && c.name !in SPLIT
    ensures InWords(other, c, st)
  {
    hide Stored, Meant, Encode, Wire, Payload, Key, SingleKey, IntReply, ValueReply;
    SingleArgs(c);
    NameIs(c);
    var k := c.args[0];
    assert Lookup(st, k) == Cell(st, k);
    Encodings(c.args, 0, st);
    PutBack(st, k);
    assert st - {k} == map j | j in st && j != k :: st[j];
  }

  /** In the proxy's terms and in words, one server does the same. */
  lemma {:induction false} ServerInWords(other: Semantics, c: Cmd, st: Store)
    requires c.args != [] && (c.name in SPLIT || SingleKey(c.name))
    ensures InWords(other, c, st)
  {
    hide InWords, SingleKey;
    if c.name in SPLIT {
      SplitInWords(other, c, st);
    } else {
      SingleInWords(other, c, st);
    }
  }

  lemma {:induction false} KeyItems(c: Cmd)
    ensures Stored(Meant(c)).elems == [Stored(BulkString(c.name))] + StoredAll(Bulks(c.args))
    ensures forall i :: 1 <= i < |Stored(Meant(c)).elems| ==> KeyItem(Stored(Meant(c)).elems[i])
  {
    hide Itoa, StoredAll;
    StoredWords(c.name, c.args);
    var elems := Stored(Meant(c)).elems;
    forall i | 1 <= i < |elems|
      ensures KeyItem(elems[i])
    {
      assert elems[i] == Stored(BulkString(c.args[i - 1]));
      PayloadOfBulk(c.args[i - 1]);
    }
  }

  lemma {:induction false} SingleData(name: string)
    requires SingleKey(name)
    ensures SingleKeyData(Stored(BulkString(name)).data)
  {
    hide SingleKey, Itoa;
    assert Stored(BulkString(name)).data == Itoa(|name|) + CRLF + name;
  }

  /** What is promised here is what is proved there. */
  lemma {:induction false} PromisedIsLegal(c: Cmd)
    requires Promised(c)
    ensures WellFormed(Stored(Typed(c))) && LegalCommand(Stored(Meant(c)))
  {
    hide WellFormed, SingleKey, SingleKeyData, Spells, NoLower, Legal, Stored, StoredAll, Bulks, Itoa, KeyItem;
    StoredIsWellFormed(Typed(c));
    KeyItems(c);
    NameIs(c);
    if SingleKey(c.name) {
      SingleData(c.name);
    }
  }

  // ---------------------------------------------------------------- commands are split however they are spelled

  function ForEach(mType: MergeType, name: string, args: seq<string>): (rs: seq<Request>)
    ensures |rs| == |args|
    ensures forall i :: 0 <= i < |args| ==> rs[i] == Request(mType, Stored(Array(Bulks([name, args[i]]))))
  {
    seq(|args|, i requires 0 <= i < |args| => Request(mType, Stored(Array(Bulks([name, args[i]])))))
  }

  function ForEachPair(args: seq<string>): (rs: seq<Request>)
    ensures |rs| == |args| / 2
    ensures forall i :: 0 <= i < |args| / 2 ==>
      rs[i] == Request(MergeOK, Stored(Array(Bulks(["MSET", args[2 * i], args[2 * i + 1]]))))
  {
    seq(|args| / 2, i requires 0 <= i < |args| / 2 =>
      Request(MergeOK, Stored(Array(Bulks(["MSET", args[2 * i], args[2 * i + 1]])))))
  }

  /** The requests of a command in words; an MSET with a key that has no value is refused. */
  function RequestsOf(c: Cmd): Option<seq<Request>> {
    if c.name == "MGET" then Some(ForEach(MergeJoin, "GET", c.args))
    else if c.name == "DEL" || c.name == "EXISTS" then Some(ForEach(MergeCount, c.name, c.args))
    else if c.name == "MSET" then if |c.args| % 2 == 0 then Some(ForEachPair(c.args)) else None
    else Some([Request(MergeNo, Stored(Meant(c)))])
  }

  lemma {:induction false} TwoWords(name: string, key: string)
    ensures Stored(Array(Bulks([name, key]))) == OneKey(Stored(BulkString(name)), Stored(BulkString(key)))
  {
    hide Stored, StoredAll, Itoa;
    StoredWords(name, [key]);
    assert [name] + [key] == [name, key];
    assert Stored(Array(Bulks([name, key]))).elems == [Stored(BulkString(name)), Stored(BulkString(key))] by {
      ArrayStored(Bulks([name, key]));
    }
    OneDigit(2);
  }

  lemma {:induction false} ThreeWords(key: string, value: string)
    ensures Stored(Array(Bulks(["MSET", key, value]))) == MSetOne(Stored(BulkString(key)), Stored(BulkString(value)))
  {
    NamesStored();
    assert Stored(BulkString("MSET")) == Word(MSET);
    hide Stored, StoredAll, Itoa;
    var items := Bulks(["MSET", key, value]);
    ArrayStored(items);
    var elems := Stored(Array(items)).elems;
    assert elems == [Word(MSET), Stored(BulkString(key)), Stored(BulkString(value))] by {
      assert elems[0] == Stored(items[0]) && elems[1] == Stored(items[1]) && elems[2] == Stored(items[2]);
    }
    OneDigit(3);
  }

  lemma {:induction false} EachKey(mType: MergeType, name: string, c: Cmd)
    ensures Stored(Meant(c)).elems != []
    ensures PerKey(mType, Stored(BulkString(name)), Stored(Meant(c)).elems) == ForEach(mType, name, c.args)
  {
    hide Stored, StoredAll, Itoa;
    StoredWords(c.name, c.args);
    var elems := Stored(Meant(c)).elems;
    forall i | 0 <= i < |c.args|
      ensures PerKey(mType, Stored(BulkString(name)), elems)[i] == ForEach(mType, name, c.args)[i]
    {
      TwoWords(name, c.args[i]);
      assert elems[i + 1] == Stored(BulkString(c.args[i]));
    }
  }

  lemma {:induction false} EachPair(c: Cmd)
    ensures Stored(Meant(c)).elems != [] && Pairs(Stored(Meant(c)).elems) == ForEachPair(c.args)
  {
    hide Stored, StoredAll, Itoa;
    StoredWords(c.name, c.args);
    var elems := Stored(Meant(c)).elems;
    forall i | 0 <= i < |c.args| / 2
      ensures Pairs(elems)[i] == ForEachPair(c.args)[i]
    {
      ThreeWords(c.args[2 * i], c.args[2 * i + 1]);
      assert elems[i * 2 + 1] == Stored(BulkString(c.args[2 * i]));
      assert elems[i * 2 + 2] == Stored(BulkString(c.args[2 * i + 1]));
    }
  }

  lemma {:induction false} SplitMeant(c: Cmd)
    ensures Stored(Meant(c)).elems != [] && Commands.Split(Stored(Meant(c))) == RequestsOf(c)
  {
    hide Stored, Meant, Pairs, PerKey, ForEach, ForEachPair;
    NameIs(c);
    EachPair(c);
    EachKey(MergeJoin, "GET", c);
    EachKey(MergeCount, c.name, c);
    FirstAndCount(c);
  }

  lemma {:induction false} FirstAndCount(c: Cmd)
    ensures |Stored(Meant(c)).elems| == |c.args| + 1
    ensures Stored(Meant(c)).elems[0] == Stored(BulkString(c.name)) && Stored(BulkString("GET")) == Word(GET)
  {
    NamesStored();
    assert Stored(BulkString("GET")) == Word(GET);
    hide Stored, StoredAll, Itoa;
    StoredWords(c.name, c.args);
  }

  /** Every command in every spelling of its name is split as its words say. */
  lemma {:induction false} AnySpelling(c: Cmd, rest: string)
    requires NoLower(c.name) && Spells(c.spelled, c.name) && Legal(Typed(c))
    ensures NextMsg(Wire(Typed(c)) + rest) == match RequestsOf(c)
      case Some(rs) => Requests(rs, rest)
      case None => Dead(RespReader.Malformed)
  {
    hide Stored, Legal, Wire, Parse, Named, Spells, NoLower, RequestsOf, Meant, Commands.Split;
    var s := Wire(Typed(c)) + rest;
    WireRoundTrip(Typed(c), rest);
    assert s[|Wire(Typed(c))|..] == rest;
    NamedIsMeant(c);
    SplitMeant(c);
  }

  lemma {:induction false} MeantIsLegal(c: Cmd)
    requires Spells(c.spelled, c.name) && Legal(Typed(c))
    ensures Legal(Meant(c)) && Spells(c.name, c.name)
  {
    var typed, meant := [c.spelled] + c.args, [c.name] + c.args;
    forall i | 0 <= i < |meant|
      ensures Legal(Bulks(meant)[i])
    {
      assert Legal(Bulks(typed)[i]) && |typed[i]| == |meant[i]|;
      assert |Itoa(|typed[i]|) + CRLF + typed[i]| == |Itoa(|meant[i]|) + CRLF + meant[i]|;
    }
  }

  /** The spelling of a name changes nothing. */
  lemma {:induction false} SpellingIgnored(c: Cmd, rest: string)
    requires NoLower(c.name) && Spells(c.spelled, c.name) && Legal(Typed(c))
    ensures NextMsg(Wire(Typed(c)) + rest) == NextMsg(Wire(Meant(c)) + rest)
  {
    hide Legal, Wire, NextMsg, Spells, NoLower, ForEach, ForEachPair, Stored;
    AnySpelling(c, rest);
    MeantIsLegal(c);
    AnySpelling(c.(spelled := c.name), rest);
  }

  /** Typed on one line, a command is the same command. */
  lemma {:induction false} TelnetForm(c: Cmd, gaps: seq<string>, rest: string)
    requires NoLower(c.name) && Spells(c.spelled, c.name) && Legal(Typed(c))
    requires Words.Apart([c.spelled] + c.args, gaps) && Words.OneLine(gaps)
    requires Inlined(Words.Laid([c.spelled] + c.args, gaps))
    ensures NextMsg(Words.Laid([c.spelled] + c.args, gaps) + CRLF + rest) == NextMsg(Wire(Typed(c)) + rest)
  {
    hide Stored, Legal, Wire, Parse, Named, Spells, NoLower, Commands.Split, Words.Laid;
    var line := Words.Laid([c.spelled] + c.args, gaps);
    InlineIsArray([c.spelled] + c.args, gaps, rest);
    WireRoundTrip(Typed(c), rest);
    NamedIsMeant(c);
    assert (line + CRLF + rest)[|line| + 2..] == rest;
    assert (Wire(Typed(c)) + rest)[|Wire(Typed(c))|..] == rest;
  }

  // ---------------------------------------------------------------- whole pipelines in words

  ghost predicate AllPromised(cmds: seq<Cmd>) {
    forall i :: 0 <= i < |cmds| ==> Promised(cmds[i])
  }

  /** The server's replies to a pipeline, and the data it ends with. */
  function SaysAll(other: Semantics, cmds: seq<Cmd>, st: Store): seq<Option<string>> {
    if cmds == [] || cmds[0].args == [] then []
    else [Some(Says(other, cmds[0], st))] + SaysAll(other, cmds[1..], After(other, cmds[0], st))
  }

  function AfterAll(other: Semantics, cmds: seq<Cmd>, st: Store): Store {
    if cmds == [] || cmds[0].args == [] then st else AfterAll(other, cmds[1..], After(other, cmds[0], st))
  }

  function TypedAll(cmds: seq<Cmd>): (vs: seq<Value>)
    ensures |vs| == |cmds| && forall i :: 0 <= i < |cmds| ==> vs[i] == Typed(cmds[i])
  {
    seq(|cmds|, i requires 0 <= i < |cmds| => Typed(cmds[i]))
  }

  function MeantAll(cmds: seq<Cmd>): (vs: seq<Value>)
    ensures |vs| == |cmds| && forall i :: 0 <= i < |cmds| ==> vs[i] == Meant(cmds[i])
  {
    seq(|cmds|, i requires 0 <= i < |cmds| => Meant(cmds[i]))
  }

  lemma {:induction false} AllInWords(other: Semantics, cmds: seq<Cmd>, st: Store)
    requires AllPromised(cmds)
    ensures ServerWrites(other, StoredAll(MeantAll(cmds)), st) == SaysAll(other, cmds, st)
    ensures ServerEnds(other, StoredAll(MeantAll(cmds)), st) == AfterAll(other, cmds, st)
  {
    if cmds != [] {
      assert Promised(cmds[0]);
      hide Stored, Meant, SingleKey, Says, After, ServerStore, ServerReply, Encode, NoLower, Spells, Legal;
      ServerInWords(other, cmds[0], st);
      assert MeantAll(cmds)[1..] == MeantAll(cmds[1..]);
      assert StoredAll(MeantAll(cmds))[0] == Stored(Meant(cmds[0]));
      assert StoredAll(MeantAll(cmds))[1..] == StoredAll(MeantAll(cmds[1..]));
      AllInWords(other, cmds[1..], After(other, cmds[0], st));
    }
  }

  lemma {:induction false} PromisedAreLegal(cmds: seq<Cmd>)
    requires AllPromised(cmds)
    ensures Sent(StoredAll(TypedAll(cmds))) && AllLegal(StoredAll(MeantAll(cmds)))
    ensures AllNamed(StoredAll(TypedAll(cmds))) == StoredAll(MeantAll(cmds))
  {
    hide Stored, Meant, Typed, LegalCommand, WellFormed, SingleKey, NoLower, Spells, Legal, Named;
    var typed, meant := StoredAll(TypedAll(cmds)), StoredAll(MeantAll(cmds));
    forall i | 0 <= i < |cmds|
      ensures typed[i].elems != [] && WellFormed(typed[i]) && Named(typed[i]) == meant[i] && LegalCommand(meant[i])
    {
      assert typed[i] == Stored(Typed(cmds[i])) && meant[i] == Stored(Meant(cmds[i]));
      PromisedIsLegal(cmds[i]);
      NamedIsMeant(cmds[i]);
    }
  }

  lemma {:induction false} WireOfAll(xs: seq<Value>)
    ensures EncodeAll(StoredAll(xs)) == WireAll(xs)
  {
    if xs != [] {
      StoredEncodesToWire(xs[0]);
      WireOfAll(xs[1..]);
      hide Encode, Stored, Wire;
      assert StoredAll(xs)[0] == Stored(xs[0]) && StoredAll(xs)[1..] == StoredAll(xs[1..]);
    }
  }

  /** `ShardingIsTransparent` in words. */
  lemma {:induction false} ShardingInWords(other: Semantics, r: Routing, cmds: seq<Cmd>, order: seq<nat>,
      nodes: Nodes, st: Store)
    requires AllPromised(cmds) && Shards(r, nodes, st) && Fifo(r, IssueAll(StoredAll(MeantAll(cmds)), 0), order)
    ensures
      var vs := StoredAll(MeantAll(cmds));
      && Written(vs, NodeReplies(other, r, IssueAll(vs, 0), order, nodes), 0) == SaysAll(other, cmds, st)
      && Shards(r, NodesAfter(other, r, IssueAll(vs, 0), order, nodes), AfterAll(other, cmds, st))
  {
    hide Fifo, Shards, NodeReplies, NodesAfter, IssueAll, Written, ServerWrites, ServerEnds, SaysAll, AfterAll,
         StoredAll, Promised, LegalCommand, AllNamed, Sent;
    PromisedAreLegal(cmds);
    AllInWords(other, cmds, st);
    ShardingIsTransparent(other, r, StoredAll(MeantAll(cmds)), order, nodes, st);
  }

  /** `PipesLikeOneServer` in words. */
  lemma {:induction false} PipesInWords(other: Semantics, r: Routing, cmds: seq<Cmd>, sup: NodePipe.Supported,
      runs: Runs, exec: seq<nat>, nodes: Nodes, st: Store)
    requires AllPromised(cmds) && Shards(r, nodes, st)
    requires Executed(r, IssueAll(StoredAll(MeantAll(cmds)), 0), sup, runs, exec)
    requires Distinct(exec) && forall m :: 0 <= m < |IssueAll(StoredAll(MeantAll(cmds)), 0)| ==> m in exec
    ensures
      var vs := StoredAll(MeantAll(cmds));
      && Written(vs, ExecReplies(other, r, IssueAll(vs, 0), exec, nodes), 0) == SaysAll(other, cmds, st)
      && Shards(r, ExecNodes(other, r, IssueAll(vs, 0), exec, nodes), AfterAll(other, cmds, st))
  {
    hide Executed, Shards, ExecReplies, ExecNodes, IssueAll, Written, ServerWrites, ServerEnds, SaysAll, AfterAll,
         StoredAll, Promised, LegalCommand, AllNamed, Sent;
    PromisedAreLegal(cmds);
    AllInWords(other, cmds, st);
    PipesLikeOneServer(other, r, StoredAll(MeantAll(cmds)), sup, runs, exec, nodes, st);
  }

  /**
   A client that sends commands, each name spelled as it likes, gets the replies of one server:
   whatever way the bytes were cut into reads, keys were sharded over nodes and nodes took turns.
   */
  lemma {:induction false} WordsInWordsOut(other: Semantics, r: Routing, cmds: seq<Cmd>, calls: seq<Call>,
      order: seq<nat>, nodes: Nodes, st: Store)
    requires AllPromised(cmds) && Stream(START, calls) == WireAll(TypedAll(cmds)) && State(START, calls).completed
    requires Shards(r, nodes, st) && Fifo(r, Pushed(Outputs(START, calls), 0), order)
    ensures
      var todo := Pushed(Outputs(START, calls), 0);
      && Answered(Outputs(START, calls), NodeReplies(other, r, todo, order, nodes), 0) == SaysAll(other, cmds, st)
      && Shards(r, NodesAfter(other, r, todo, order, nodes), AfterAll(other, cmds, st))
  {
    hide Outputs, State, Stream, Fifo, Shards, NodeReplies, NodesAfter, Pushed, Answered, ServerWrites,
         ServerEnds, SaysAll, AfterAll, Sent, AllNamed, EncodeAll, WireAll, StoredAll, Promised;
    PromisedAreLegal(cmds);
    WireOfAll(TypedAll(cmds));
    AllInWords(other, cmds, st);
    BytesInBytesOut(other, r, StoredAll(TypedAll(cmds)), calls, order, nodes, st);
  }

  /** A value that was set is read back, whatever it and its key are. */
  lemma {:induction false} SetThenGet(other: Semantics, k: string, v: string, st: Store)
    requires other(Stored(Array(Bulks(["SET", k, v]))), Cell(st, k)) == (Some(v), OK_REPLY)
    ensures
      SaysAll(other, [Cmd("SET", "set", [k, v]), Cmd("GET", "Get", [k])], st)
      == [Some("+OK\r\n"), Some("$" + Itoa(|v|) + "\r\n" + v + "\r\n")]
  {
    hide Stored, Itoa;
    var set_, get := Cmd("SET", "set", [k, v]), Cmd("GET", "Get", [k]);
    assert ["SET"] + [k, v] == ["SET", k, v];
    var st1 := After(other, set_, st);
    assert st1 == st[k := v];
    Encodings([], 0, st);
    assert Says(other, set_, st) == "+OK\r\n";
    assert Says(other, get, st1) == "$" + Itoa(|v|) + "\r\n" + v + "\r\n";
    assert [set_, get][1..] == [get] && [get][1..] == [];
    assert SaysAll(other, [get], st1) == [Some(Says(other, get, st1))];
  }

  /** Commands of everyday use are promised, in any spelling. */
  lemma {:induction false} EverydayCommands()
    ensures Promised(Cmd("SET", "set", ["foo", "bar"])) && Promised(Cmd("MGET", "mGet", ["a", "b"]))
  {
    ShortIsLegal(["set", "foo", "bar"]);
    ShortIsLegal(["mGet", "a", "b"]);
    hide Legal, Bulks;
    assert ["set"] + ["foo", "bar"] == ["set", "foo", "bar"] && ["mGet"] + ["a", "b"] == ["mGet", "a", "b"];
  }

  lemma {:induction false} ShortIsLegal(words: seq<string>)
    requires |words| < 10 && forall i :: 0 <= i < |words| ==> |words[i]| < 10
    ensures Legal(Array(Bulks(words)))
  {
    forall i | 0 <= i < |words|
      ensures Legal(Bulks(words)[i])
    {
      OneDigit(|words[i]|);
    }
  }
}
