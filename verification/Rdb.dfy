/**
 What the reader of Redis dumps makes of the unread bytes: the parts of anzi/rdb.go that
 take a length, a string or a ziplist entry off the stream, and the callbacks of each object.
 */
module Rdb {
  import opened Lzf
  import Decimal

  /** Why a reader gives up: the stream ends, an encoding where a length is due, a panic. */
  datatype Ending = Short | EncodedLength | Panicked | BadHeader | NotModelled

  /** A value and the bytes after it. */
  datatype Got<+T> = Got(value: T, rest: seq<byte>) | Stop(why: Ending) {
    predicate IsFailure() { Stop? }
    function PropagateFailure<U>(): Got<U>
      requires Stop?
    {
      Stop(why)
    }
    function Extract(): (T, seq<byte>)
      requires Got?
    {
      (value, rest)
    }
  }

  // ---------------------------------------------------------------- numbers

  function BigEndian(b: seq<byte>): nat {
    if b == [] then 0 else BigEndian(b[..|b| - 1]) * 256 + b[|b| - 1]
  }

  function LittleEndian(b: seq<byte>): nat {
    if b == [] then 0 else b[0] + 256 * LittleEndian(b[1..])
  }

  /** Two's complement of `bytes` bytes. */
  function Signed(n: nat, bytes: nat): int {
    if n < Pow256(bytes) / 2 then n else n - Pow256(bytes)
  }

  function Pow256(k: nat): nat {
    if k == 0 then 1 else 256 * Pow256(k - 1)
  }

  function Text(n: int): seq<byte> {
    var s := Decimal.Itoa(n);
    seq(|s|, i requires 0 <= i < |s| => s[i] as int % 256)
  }

  // ---------------------------------------------------------------- lengths and strings

  function Take(s: seq<byte>, n: nat): (r: Got<seq<byte>>)
    ensures r.Got? ==> |r.rest| + n == |s|
  {
    if |s| < n then Stop(Short) else Got(s[..n], s[n..])
  }

  /** The longest slice `make` gives on a 64-bit machine; it panics on more. */
  const MAKE_LIMIT := 0x1_0000_0000_0000

  /** A buffer of `n` bytes is made, then filled. */
  function TakeBuffer(s: seq<byte>, n: nat): (r: Got<seq<byte>>)
    ensures r.Got? ==> |r.rest| + n == |s|
  {
    if n > MAKE_LIMIT then Stop(Panicked) else Take(s, n)
  }

  function TakeByte(s: seq<byte>): (r: Got<byte>)
    ensures r.Got? ==> |r.rest| < |s|
  {
    if s == [] then Stop(Short) else Got(s[0], s[1..])
  }

  /** A length, or the flag of an encoded string in its place. */
  datatype Length = Plain(n: nat) | Encoded(flag: nat)

  function ReadLength(s: seq<byte>): (r: Got<Length>)
    ensures r.Got? ==> |r.rest| < |s|
  {
    var head :- TakeByte(s);
    var b: int, t := head.0, head.1;
    if b / 64 == 3 then Got(Encoded(b % 64), t)
    else if b / 64 == 0 then Got(Plain(b % 64), t)
    else if b / 64 == 1 then
      var low :- TakeByte(t);
      Got(Plain(b % 64 * 256 + (low.0 as int)), low.1)
    else if b == 0x80 then
      var word :- Take(t, 4);
      Got(Plain(BigEndian(word.0)), word.1)
    else if b == 0x81 then
      var word :- Take(t, 8);
      Got(Plain(BigEndian(word.0)), word.1)
    else Got(Plain(0), t)
  }

  /** Where an encoding is an error. */
  function ReadCount(s: seq<byte>): (r: Got<nat>)
    ensures r.Got? ==> |r.rest| < |s|
  {
    var l :- ReadLength(s);
    if l.0.Encoded? then Stop(EncodedLength) else Got(l.0.n, l.1)
  }

  /** A short compressed string is still decompressed, from a buffer filled up with zeros. */
  function ReadPacked(s: seq<byte>): (r: Got<seq<byte>>)
    ensures r.Got? ==> |r.rest| < |s|
  {
    var clen :- ReadCount(s);
    var ulen :- ReadCount(clen.1);
    if clen.0 > MAKE_LIMIT || ulen.0 > MAKE_LIMIT then Stop(Panicked)
    else
      match Unpack(Fit(ulen.1, clen.0), [], ulen.0)
      case None => Stop(Panicked)
      case Some(data) => if |ulen.1| < clen.0 then Stop(Short) else Got(data, ulen.1[clen.0..])
  }

  function ReadInt(s: seq<byte>, bytes: nat): (r: Got<seq<byte>>)
    ensures r.Got? ==> |r.rest| <= |s|
  {
    var word :- Take(s, bytes);
    Got(Text(Signed(LittleEndian(word.0), bytes)), word.1)
  }

  function ReadEncoded(flag: nat, s: seq<byte>): (r: Got<seq<byte>>)
    ensures r.Got? ==> |r.rest| <= |s|
  {
    if flag == 0 then
      var b :- TakeByte(s);
      Got(Text(b.0), b.1)
    else if flag == 1 then ReadInt(s, 2)
    else if flag == 2 then ReadInt(s, 4)
    else if flag == 3 then ReadPacked(s)
    else Got([], s)
  }

  function ReadString(s: seq<byte>): (r: Got<seq<byte>>)
    ensures r.Got? ==> |r.rest| < |s|
  {
    var l :- ReadLength(s);
    match l.0
    case Plain(n) => TakeBuffer(l.1, n)
    case Encoded(flag) => ReadEncoded(flag, l.1)
  }

  // ---------------------------------------------------------------- callbacks

  datatype Call =
    | SelectDB(n: nat)
    | AuxField(name: seq<byte>, value: seq<byte>)
    | ResizeDB(size: nat, expires: nat)
    | EndOfRDB
    | CmdSet(key: seq<byte>, value: seq<byte>, expiry: nat)
    | CmdRPush(key: seq<byte>, value: seq<byte>)
    | CmdSAdd(key: seq<byte>, value: seq<byte>)
    | CmdHSet(key: seq<byte>, field: seq<byte>, value: seq<byte>)
    | ExpireAt(key: seq<byte>, expiry: nat)

  /** The callbacks made, and how it ended. */
  datatype Ran = Ran(calls: seq<Call>, end: Got<()>)

  function Prepend(calls: seq<Call>, r: Ran): Ran { Ran(calls + r.calls, r.end) }

  datatype Kind = List | Set | Hash

  /** One element, or one field with its value. */
  function ReadItem(kind: Kind, key: seq<byte>, s: seq<byte>): (r: Got<Call>)
    ensures r.Got? ==> |r.rest| < |s|
  {
    var a :- ReadString(s);
    match kind
    case List => Got(CmdRPush(key, a.0), a.1)
    case Set => Got(CmdSAdd(key, a.0), a.1)
    case Hash =>
      var b :- ReadString(a.1);
      Got(CmdHSet(key, a.0, b.0), b.1)
  }

  function Items(kind: Kind, key: seq<byte>, s: seq<byte>, n: nat): (r: Ran)
    ensures r.end.Got? ==> |r.end.rest| <= |s|
    decreases n
  {
    if n == 0 then Ran([], Got((), s))
    else
      match ReadItem(kind, key, s)
      case Stop(why) => Ran([], Stop(why))
      case Got(call, rest) => Prepend([call], Items(kind, key, rest, n - 1))
  }

  // ---------------------------------------------------------------- ziplists

  /** The length of the entry before, which nobody looks at. */
  function SkipPrevious(s: seq<byte>): (r: Got<()>)
    ensures r.Got? ==> |r.rest| < |s|
  {
    var prev :- TakeByte(s);
    if prev.0 == 254 then
      var word :- Take(prev.1, 4);
      Got((), word.1)
    else Got((), prev.1)
  }

  /** Entries that hold integers are not part of the model. */
  function ZipString(s: seq<byte>): (r: Got<seq<byte>>)
    ensures r.Got? ==> |r.rest| < |s|
  {
    var head :- TakeByte(s);
    var h: int := head.0;
    if h / 64 == 0 then Take(head.1, h % 64)
    else if h / 64 == 1 then
      var low :- TakeByte(head.1);
      Take(low.1, h % 64 * 256 + (low.0 as int))
    else if h / 64 == 2 then
      var word :- Take(head.1, 4);
      Take(word.1, BigEndian(word.0))
    else Stop(NotModelled)
  }

  function ReadZipEntry(s: seq<byte>): (r: Got<seq<byte>>)
    ensures r.Got? ==> |r.rest| < |s|
  {
    var prev :- SkipPrevious(s);
    ZipString(prev.1)
  }

  /** The entries, then the end mark. */
  function ZipEntries(key: seq<byte>, s: seq<byte>, n: nat): Ran
    decreases n
  {
    if n == 0 then
      if s == [] then Ran([], Stop(Short))
      else if s[0] != 255 then Ran([], Stop(Panicked))
      else Ran([], Got((), s[1..]))
    else
      match ReadZipEntry(s)
      case Stop(why) => Ran([], Stop(why))
      case Got(entry, rest) => Prepend([CmdRPush(key, entry)], ZipEntries(key, rest, n - 1))
  }

  /** How many entries a ziplist announces, after two words nobody looks at. */
  function ZipHead(s: seq<byte>): Got<nat> {
    var zl :- Take(s, 4);
    var tail :- Take(zl.1, 4);
    var num :- Take(tail.1, 2);
    Got(LittleEndian(num.0), num.1)
  }

  function ZipList(key: seq<byte>, data: seq<byte>): Ran {
    match ZipHead(data)
    case Stop(why) => Ran([], Stop(why))
    case Got(n, rest) => ZipEntries(key, rest, n)
  }

  /** `n` ziplists, each in a string of its own. */
  function QuickList(key: seq<byte>, s: seq<byte>, n: nat): (r: Ran)
    ensures r.end.Got? ==> |r.end.rest| <= |s|
    decreases n
  {
    if n == 0 then Ran([], Got((), s))
    else
      match ReadString(s)
      case Stop(why) => Ran([], Stop(why))
      case Got(data, rest) =>
        var node := ZipList(key, data);
        if node.end.Stop? then node else Prepend(node.calls, QuickList(key, rest, n - 1))
  }

  // ---------------------------------------------------------------- objects

  function WithExpiry(r: Ran, key: seq<byte>, expiry: nat): Ran {
    if r.end.Got? then Ran(r.calls + [ExpireAt(key, expiry)], r.end) else r
  }

  function Counted(kind: Kind, key: seq<byte>, s: seq<byte>): (r: Ran)
    ensures r.end.Got? ==> |r.end.rest| < |s|
  {
    match ReadCount(s)
    case Stop(why) => Ran([], Stop(why))
    case Got(n, rest) => Items(kind, key, rest, n)
  }

  /** The value of a key by its type; sorted sets, streams, modules and the rest are not part of the model. */
  function Object(dtype: int, key: seq<byte>, expiry: nat, s: seq<byte>): (r: Ran)
    ensures r.end.Got? ==> |r.end.rest| < |s|
  {
    if dtype == 0 then
      match ReadString(s)
      case Stop(why) => Ran([], Stop(why))
      case Got(data, rest) => Ran([CmdSet(key, data, expiry)], Got((), rest))
    else if dtype == 1 then WithExpiry(Counted(List, key, s), key, expiry)
    else if dtype == 2 then WithExpiry(Counted(Set, key, s), key, expiry)
    else if dtype == 4 then WithExpiry(Counted(Hash, key, s), key, expiry)
    else if dtype == 10 then
      match ReadString(s)
      case Stop(why) => Ran([], Stop(why))
      case Got(data, rest) =>
        var list := ZipList(key, data);
        WithExpiry(Ran(list.calls, if list.end.Stop? then list.end else Got((), rest)), key, expiry)
    else if dtype == 14 then
      match ReadCount(s)
      case Stop(why) => Ran([], Stop(why))
      case Got(n, rest) => WithExpiry(QuickList(key, rest, n), key, expiry)
    else Ran([], Stop(NotModelled))
  }

  // ---------------------------------------------------------------- the stream

  /** The expiry in milliseconds and the type byte after it. Seconds are multiplied in 32 bits. */
  function ReadExpire(dtype: byte, s: seq<byte>): (r: Got<(nat, byte)>)
    ensures r.Got? ==> |r.rest| <= |s|
  {
    if dtype == 252 then
      var word :- Take(s, 8);
      var next :- TakeByte(word.1);
      Got((LittleEndian(word.0), next.0), next.1)
    else if dtype == 253 then
      var word :- Take(s, 4);
      var next :- TakeByte(word.1);
      Got((LittleEndian(word.0) * 1000 % 0x1_0000_0000, next.0), next.1)
    else Got((0, dtype), s)
  }

  function ReadIdleAndFreq(dtype: byte, s: seq<byte>): (r: Got<byte>)
    ensures r.Got? ==> |r.rest| <= |s|
  {
    if dtype == 248 then
      var idle :- ReadCount(s);
      TakeByte(idle.1)
    else if dtype == 249 then
      var freq :- TakeByte(s);
      TakeByte(freq.1)
    else Got(dtype, s)
  }

  /** One round of the loop: `over` when the end mark was read. */
  datatype Round = Round(ran: Ran, over: bool)

  function Single(call: Call, rest: seq<byte>): Round { Round(Ran([call], Got((), rest)), false) }

  function Halt(why: Ending): Round { Round(Ran([], Stop(why)), true) }

  function EndMark(s: seq<byte>, version: int): Round {
    if version >= 5 then
      match Take(s, 8)
      case Stop(why) => Round(Ran([EndOfRDB], Stop(why)), true)
      case Got(_, rest) => Round(Ran([EndOfRDB], Got((), rest)), true)
    else Round(Ran([EndOfRDB], Got((), s)), true)
  }

  /** What follows the type byte. */
  function Body(dtype: byte, expiry: nat, s: seq<byte>, version: int): (r: Round)
    ensures !r.over ==> r.ran.end.Got? && |r.ran.end.rest| < |s|
  {
    if dtype == 254 then
      match ReadCount(s)
      case Stop(why) => Halt(why)
      case Got(n, rest) => Single(SelectDB(n), rest)
    else if dtype == 250 then
      match ReadString(s)
      case Stop(why) => Halt(why)
      case Got(name, more) =>
        match ReadString(more)
        case Stop(why) => Halt(why)
        case Got(value, rest) => Single(AuxField(name, value), rest)
    else if dtype == 251 then
      match ReadCount(s)
      case Stop(why) => Halt(why)
      case Got(size, more) =>
        match ReadCount(more)
        case Stop(why) => Halt(why)
        case Got(expires, rest) => Single(ResizeDB(size, expires), rest)
    else if dtype == 247 then Halt(NotModelled)
    else if dtype == 255 then EndMark(s, version)
    else
      match ReadString(s)
      case Stop(why) => Halt(why)
      case Got(key, rest) =>
        var ran := Object(dtype, key, expiry, rest);
        Round(ran, ran.end.Stop?)
  }

  function OneRound(s: seq<byte>, version: int): (r: Round)
    ensures !r.over ==> r.ran.end.Got? && |r.ran.end.rest| < |s|
  {
    match TakeByte(s)
    case Stop(why) => Halt(why)
    case Got(first, t) =>
      match ReadExpire(first, t)
      case Stop(why) => Halt(why)
      case Got((expiry, second), u) =>
        match ReadIdleAndFreq(second, u)
        case Stop(why) => Halt(why)
        case Got(dtype, rest) => Body(dtype, expiry, rest, version)
  }

  function Records(s: seq<byte>, version: int): Ran
    decreases |s|
  {
    var round := OneRound(s, version);
    if round.over then round.ran else Prepend(round.ran.calls, Records(round.ran.end.rest, version))
  }

  function AsText(b: seq<byte>): string { seq(|b|, i requires 0 <= i < |b| => b[i] as char) }

  /** The whole stream: magic, version, records. */
  function Sync(s: seq<byte>): Ran {
    match Take(s, 9)
    case Stop(why) => Ran([], Stop(why))
    case Got(head, rest) =>
      if AsText(head[..5]) != "REDIS" then Ran([], Stop(BadHeader))
      else
        match Decimal.ParseInt(AsText(head[5..]))
        case None => Ran([], Stop(BadHeader))
        case Some(version) => Records(rest, version)
  }
}
