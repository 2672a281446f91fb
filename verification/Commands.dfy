/**
 How a client command becomes requests: the splitting half of
 proxy/proto/redis/proxy_conn.go, and `Key` of proxy/proto/redis/request.go.
 */
module Commands {
  import opened Common
  import opened Decimal
  import opened Text
  import opened Resp
  import Words

  const MSET := "4\r\nMSET"
  const MGET := "4\r\nMGET"
  const GET := "3\r\nGET"
  const DEL := "3\r\nDEL"
  const EXISTS := "6\r\nEXISTS"
  const EVAL := "4\r\nEVAL"
  const SET := "3\r\nSET"

  /**
   Names of supported commands that read and write one key, the first argument, and depend on
   nothing but its value: no clock (SET has options that need one), no chance, no other key.
   */
  predicate SingleKey(name: string) {
    name in {
      "DUMP", "TYPE", "BITCOUNT", "BITPOS", "GET", "GETBIT", "GETRANGE", "STRLEN", "HEXISTS", "HGET", "HGETALL",
      "HKEYS", "HLEN", "HMGET", "HSTRLEN", "HVALS", "SCARD", "SISMEMBER", "SMEMBERS", "ZCARD", "ZCOUNT",
      "ZLEXCOUNT", "ZRANGE", "ZRANGEBYLEX", "ZRANGEBYSCORE", "ZRANK", "ZREVRANGE", "ZREVRANGEBYLEX",
      "ZREVRANGEBYSCORE", "ZREVRANK", "ZSCORE", "LINDEX", "LLEN", "LRANGE", "APPEND", "DECR", "DECRBY",
      "GETSET", "INCR", "INCRBY", "INCRBYFLOAT", "SET", "SETBIT", "SETNX", "SETRANGE", "HDEL", "HINCRBY",
      "HINCRBYFLOAT", "HMSET", "HSET", "HSETNX", "LINSERT", "LPOP", "LPUSH", "LPUSHX", "LREM", "LSET", "LTRIM",
      "RPOP", "RPUSH", "RPUSHX", "SADD", "SREM", "ZADD", "ZINCRBY", "ZREM", "ZREMRANGEBYLEX", "ZREMRANGEBYRANK",
      "ZREMRANGEBYSCORE", "PFADD"
    }
  }

  /** Such a name as a bulk string holds it. */
  ghost predicate SingleKeyData(data: string) {
    exists name :: SingleKey(name) && data == Itoa(|name|) + CRLF + name
  }

  /** How the replies of a command's requests are put together again. */
  datatype MergeType = MergeNo | MergeCount | MergeOK | MergeJoin

  datatype Request = Request(mType: MergeType, resp: Resp)

  predicate IsLower(c: char) { 'a' <= c <= 'z' }

  predicate IsUpper(c: char) { 'A' <= c <= 'Z' }

  function UpperChar(c: char): (u: char)
    ensures IsLower(c) ==> IsUpper(u) && u as int == c as int - 32
    ensures !IsLower(c) ==> u == c
  {
    if IsLower(c) then (c as int - 'a' as int + 'A' as int) as char else c
  }

  /** What `conv.UpdateToUpper` leaves. */
  function Upper(s: string): (u: string)
    ensures |u| == |s| && forall i :: 0 <= i < |s| ==> !IsLower(u[i])
    ensures forall i :: 0 <= i < |s| ==> if IsLower(s[i]) then u[i] as int == s[i] as int - 32 else u[i] == s[i]
  {
    seq(|s|, i requires 0 <= i < |s| => UpperChar(s[i]))
  }

  /** `conv.UpdateToUpper`: letter by letter, in place. */
  method UpdateToUpper(src: array<char>)
    modifies src
    ensures src[..] == Upper(old(src[..]))
  {
    for k := 0 to src.Length
      invariant src[..k] == Upper(old(src[..]))[..k] && src[k..] == old(src[..])[k..]
    {
      ghost var c := old(src[..])[k];
      assert src[k] == src[k..][0] == c;
      if 'a' <= src[k] && src[k] <= 'z' {
        src[k] := (src[k] as int - ('a' as int - 'A' as int)) as char;
      }
      assert src[k] == Upper(old(src[..]))[k];
    }
  }

  /** `s` spells `name`, whose letters may be in lower case. */
  predicate Spells(s: string, name: string) {
    && |s| == |name|
    && forall i :: 0 <= i < |s| ==> s[i] == name[i] || (IsUpper(name[i]) && s[i] as int == name[i] as int + 32)
  }

  predicate NoLower(s: string) { forall i :: 0 <= i < |s| ==> !IsLower(s[i]) }

  /** Upper-casing finds the name, and finds it in every spelling of it and in nothing else. */
  lemma {:induction false} UpperFindsName(s: string, name: string)
    requires NoLower(name)
    ensures Upper(s) == name <==> Spells(s, name)
  {
    if Upper(s) == name {
      forall i | 0 <= i < |s|
        ensures s[i] == name[i] || (IsUpper(name[i]) && s[i] as int == name[i] as int + 32)
      {
        assert Upper(s)[i] == name[i];
      }
    }
  }

  /** The length line of a bulk string has no letters. */
  lemma {:induction false} UpperBulk(s: string)
    ensures Upper(Itoa(|s|) + CRLF + s) == Itoa(|Upper(s)|) + CRLF + Upper(s)
  {
    hide Itoa;
    ItoaDigits(|s|);
    var head := Itoa(|s|) + CRLF;
    assert Upper(head) == head;
    assert Upper(head + s) == Upper(head) + Upper(s);
  }

  /** The command with its name in upper case, as the original rewrites it in place. */
  function Named(v: Resp): (u: Resp)
    requires v.elems != []
    ensures |u.elems| == |v.elems|
  {
    v.(elems := v.elems[0 := v.elems[0].(data := Upper(v.elems[0].data))])
  }

  function Word(data: string): Resp { Resp('$', data, []) }

  function MSetOne(key: Resp, value: Resp): Resp { Resp('*', "3", [Word(MSET), key, value]) }

  function OneKey(name: Resp, key: Resp): Resp { Resp('*', "2", [name, key]) }

  /** MSET: one request per pair. */
  function Pairs(elems: seq<Resp>): (rs: seq<Request>)
    requires elems != []
    ensures |rs| == (|elems| - 1) / 2
    ensures forall i :: 0 <= i < |rs| ==> rs[i] == Request(MergeOK, MSetOne(elems[i * 2 + 1], elems[i * 2 + 2]))
  {
    seq((|elems| - 1) / 2, i requires 0 <= i < (|elems| - 1) / 2 =>
      Request(MergeOK, MSetOne(elems[i * 2 + 1], elems[i * 2 + 2])))
  }

  /** One request per key behind the command's name. */
  function PerKey(mType: MergeType, name: Resp, elems: seq<Resp>): (rs: seq<Request>)
    requires elems != []
    ensures |rs| == |elems| - 1
    ensures forall i :: 0 <= i < |rs| ==> rs[i] == Request(mType, OneKey(name, elems[i + 1]))
  {
    seq(|elems| - 1, i requires 0 <= i < |elems| - 1 => Request(mType, OneKey(name, elems[i + 1])))
  }

  /** The requests of a command whose name is already in upper case; `None` refuses it. */
  function Split(v: Resp): Option<seq<Request>>
    requires v.elems != []
  {
    var cmd := v.elems[0].data;
    if cmd == MSET then
      if |v.elems| % 2 == 0 then None else Some(Pairs(v.elems))
    else if cmd == MGET then Some(PerKey(MergeJoin, Word(GET), v.elems))
    else if cmd == DEL || cmd == EXISTS then Some(PerKey(MergeCount, v.elems[0], v.elems))
    else Some([Request(MergeNo, v)])
  }

  /** The bytes of a bulk string behind its length line; other items as they are. */
  function Payload(v: Resp): string {
    if v.kind != '$' then v.data
    else
      var pos := IndexCrlf(v.data) + 2;
      if pos <= |v.data| then v.data[pos..] else ""
  }

  /** The key a request is routed by. */
  function Key(v: Resp): string {
    if |v.elems| < 1 then ""
    else if |v.elems| == 1 then v.elems[0].data
    else if |v.elems| >= 4 && v.elems[0].data == EVAL then Payload(v.elems[3])
    else Payload(v.elems[1])
  }

  // ---------------------------------------------------------------- commands in the client's words

  /** A command as clients send it: an array of bulk strings, the name first. */
  function Bulks(words: seq<string>): (vs: seq<Value>)
    ensures |vs| == |words| && forall i :: 0 <= i < |words| ==> vs[i] == BulkString(words[i])
  {
    seq(|words|, i requires 0 <= i < |words| => BulkString(words[i]))
  }

  lemma ArrayStored(items: seq<Value>)
    ensures Stored(Array(items)).kind == '*' && Stored(Array(items)).data == Itoa(|items|)
    ensures |Stored(Array(items)).elems| == |items|
    ensures forall i :: 0 <= i < |items| ==> Stored(Array(items)).elems[i] == Stored(items[i])
  {
  }

  /** Behind the length line are the bytes of a bulk string. */
  lemma {:induction false} PayloadOfBulk(b: string)
    ensures Payload(Stored(BulkString(b))) == b
    ensures IndexCrlf(Stored(BulkString(b)).data) >= 0
  {
    PayloadIs(Stored(BulkString(b)).data, b);
  }

  /** Two words are told apart by what bulk strings hold. */
  lemma {:induction false} SameBulk(a: string, b: string)
    ensures Stored(BulkString(a)).data == Stored(BulkString(b)).data <==> a == b
  {
    PayloadOfBulk(a);
    PayloadOfBulk(b);
  }

  lemma OneDigit(n: nat)
    requires n < 10
    ensures Itoa(n) == [DigitChar(n)]
  {
  }

  /** The names the original compares with, as bulk strings hold them. */
  lemma {:induction false} NamesStored()
    ensures MSET == Stored(BulkString("MSET")).data && MGET == Stored(BulkString("MGET")).data
    ensures GET == Stored(BulkString("GET")).data && SET == Stored(BulkString("SET")).data
    ensures DEL == Stored(BulkString("DEL")).data && EXISTS == Stored(BulkString("EXISTS")).data
    ensures EVAL == Stored(BulkString("EVAL")).data
  {
    OneDigit(3);
    OneDigit(4);
    OneDigit(6);
    hide Itoa;
    assert "4" + CRLF + "MSET" == MSET && "4" + CRLF + "MGET" == MGET && "4" + CRLF + "EVAL" == EVAL;
    assert "3" + CRLF + "GET" == GET && "3" + CRLF + "SET" == SET && "3" + CRLF + "DEL" == DEL;
    assert "6" + CRLF + "EXISTS" == EXISTS;
  }

  /** A command goes where its first argument is, whatever follows it. */
  lemma {:induction false} KeyOfCommand(name: string, key: string, rest: seq<Value>)
    requires name == "EVAL" ==> |rest| < 2
    ensures Key(Stored(Array([BulkString(name), BulkString(key)] + rest))) == key
  {
    hide Stored, Payload;
    var items := [BulkString(name), BulkString(key)] + rest;
    ArrayStored(items);
    NamesStored();
    SameBulk(name, "EVAL");
    assert items[0] == BulkString(name) && items[1] == BulkString(key);
    PayloadOfBulk(key);
  }

  /** An EVAL goes where its first key is: behind the script and the number of keys. */
  lemma {:induction false} KeyOfEval(script: Value, count: Value, key: string, rest: seq<Value>)
    ensures Key(Stored(Array([BulkString("EVAL"), script, count, BulkString(key)] + rest))) == key
  {
    hide Stored, Payload;
    var items := [BulkString("EVAL"), script, count, BulkString(key)] + rest;
    ArrayStored(items);
    NamesStored();
    assert items[0] == BulkString("EVAL") && items[3] == BulkString(key);
    PayloadOfBulk(key);
  }

  // ---------------------------------------------------------------- the telnet form

  lemma {:induction false} InlineIsBulks(line: string, ws: seq<string>)
    requires Fields(line) == ws && ws != []
    ensures Inline(line) == Done(Stored(Array(Bulks(ws))), |line|)
  {
    hide Itoa, Fields;
    ArrayStored(Bulks(ws));
    var v := Stored(Array(Bulks(ws)));
    assert v.elems == seq(|ws|, i requires 0 <= i < |ws| => InlineWord(ws[i]));
  }

  /** The first byte is none that another form begins with. */
  predicate Inlined(line: string) { line != "" && !IsPlain(line[0]) && line[0] != '$' && line[0] != '*' }

  /** Words on a line, any white space between them, are read as the array of those words in order. */
  lemma {:induction false} InlineIsArray(ws: seq<string>, gaps: seq<string>, rest: string)
    requires ws != [] && Words.Apart(ws, gaps) && Words.OneLine(gaps) && Inlined(Words.Laid(ws, gaps))
    ensures
      var line := Words.Laid(ws, gaps);
      Parse(line + CRLF + rest) == Done(Stored(Array(Bulks(ws))), |line| + 2)
  {
    hide Stored, Inline, Fields, Bulks, Words.Laid, ParseAll, Bulk, ParseInt;
    var line := Words.Laid(ws, gaps);
    Words.LaidInOneLine(ws, gaps);
    Words.FieldsLaid(ws, gaps, CRLF);
    assert NoCrlf(line);
    IndexAfterText(line, rest);
    var s := line + CRLF + rest;
    assert s[..|line| + 2] == line + CRLF;
    InlineIsBulks(line + CRLF, ws);
  }
}
