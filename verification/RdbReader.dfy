/**
 The reader of anzi/rdb.go as it runs: it moves along the stream, remembers the key and the
 expiry, and makes callbacks as it goes.
 */
module RdbReader {
  import opened Common
  import opened Lzf
  import opened Rdb
  import opened RdbDump
  import Decimal

  ghost predicate Ends(end: Got<()>, err: Option<Ending>, rest: seq<byte>) {
    if end.Got? then err == None && rest == end.rest else err == Some(end.why)
  }

  lemma PrependNothing(r: Ran)
    ensures Prepend([], r) == r
  {
  }

  lemma {:induction false} ItemsStep(kind: Kind, key: seq<byte>, s: seq<byte>, n: nat, done: seq<Call>)
    requires n > 0
    ensures
      match ReadItem(kind, key, s)
      case Stop(why) => Prepend(done, Items(kind, key, s, n)) == Ran(done, Stop(why))
      case Got(call, rest) => Prepend(done, Items(kind, key, s, n)) == Prepend(done + [call],
        Items(kind, key, rest, n - 1))
  {
    hide ReadItem;
    if ReadItem(kind, key, s).Got? {
      var call, more := ReadItem(kind, key, s).value, Items(kind, key, ReadItem(kind, key, s).rest, n - 1).calls;
      assert done + ([call] + more) == done + [call] + more;
    }
  }

  lemma ItemsEnd(kind: Kind, key: seq<byte>, s: seq<byte>, done: seq<Call>)
    ensures Prepend(done, Items(kind, key, s, 0)) == Ran(done, Got((), s))
  {
  }

  class Reader {
    /** The bytes not yet read, the callbacks made so far. */
    var rest: seq<byte>
    var calls: seq<Call>
    var key: seq<byte>
    var expiry: nat

    constructor (stream: seq<byte>)
      ensures rest == stream && calls == []
    {
      rest, calls, key, expiry := stream, [], [], 0;
    }

    /** The callbacks of `ran` were made, and `err` and the stream are as it says. */
    twostate predicate Did(ran: Ran, new err: Option<Ending>)
      reads this
    {
      && calls == old(calls) + ran.calls
      && Ends(ran.end, err, rest)
    }

    /** The loops over the elements of lists and sets and the fields of hashes. */
    method ReadItems(kind: Kind, length: nat) returns (err: Option<Ending>)
      modifies this`rest, this`calls
      ensures Did(Items(kind, key, old(rest), length), err)
    {
      hide ReadItem, Items, Prepend;
      var i := 0;
      ghost var done: seq<Call> := [];
      PrependNothing(Items(kind, key, rest, length));
      while i < length
        invariant i <= length && calls == old(calls) + done
        invariant Items(kind, key, old(rest), length) == Prepend(done, Items(kind, key, rest, length - i))
      {
        ItemsStep(kind, key, rest, length - i, done);
        match ReadItem(kind, key, rest)
        case Stop(why) => return Some(why);
        case Got(call, t) =>
          rest, calls := t, calls + [call];
          done := done + [call];
          i := i + 1;
      }
      ItemsEnd(kind, key, rest, done);
      err := None;
    }

    /** The entries of a ziplist, read by a reader of their own, then the end mark. */
    method ReadZipList(data: seq<byte>) returns (err: Option<Ending>)
      modifies this`calls
      ensures
        var ran := ZipList(key, data);
        calls == old(calls) + ran.calls && err == if ran.end.Got? then None else Some(ran.end.why)
    {
      hide ReadZipEntry;
      var head := ZipHead(data);
      if head.Stop? {
        return Some(head.why);
      }
      var srd := head.rest;
      var i := 0;
      ghost var done: seq<Call> := [];
      while i < head.value
        invariant i <= head.value && calls == old(calls) + done
        invariant ZipList(key, data) == Prepend(done, ZipEntries(key, srd, head.value - i))
      {
        match ReadZipEntry(srd)
        case Stop(why) => return Some(why);
        case Got(entry, t) =>
          calls := calls + [CmdRPush(key, entry)];
          done := done + [CmdRPush(key, entry)];
          srd := t;
          i := i + 1;
      }
      if srd == [] {
        return Some(Short);
      }
      err := if srd[0] != 255 then Some(Panicked) else None;
    }

    method ReadQuickList(count: nat) returns (err: Option<Ending>)
      modifies this`rest, this`calls
      ensures Did(QuickList(key, old(rest), count), err)
    {
      hide ReadString, ZipList;
      var i := 0;
      ghost var done: seq<Call> := [];
      while i < count
        invariant i <= count && calls == old(calls) + done
        invariant QuickList(key, old(rest), count) == Prepend(done, QuickList(key, rest, count - i))
      {
        match ReadString(rest)
        case Stop(why) => return Some(why);
        case Got(data, t) =>
          ghost var node := ZipList(key, data);
          rest := t;
          err := ReadZipList(data);
          done := done + node.calls;
          if err.Some? {
            return;
          }
          i := i + 1;
      }
      err := None;
    }

    method ReadCounted(kind: Kind) returns (err: Option<Ending>)
      modifies this`rest, this`calls
      ensures Did(WithExpiry(Counted(kind, key, old(rest)), key, expiry), err)
    {
      hide ReadCount, Items;
      match ReadCount(rest)
      case Stop(why) => return Some(why);
      case Got(length, t) =>
        rest := t;
        err := ReadItems(kind, length);
        if err.None? {
          calls := calls + [ExpireAt(key, expiry)];
        }
    }

    /** Reads a list kept as one ziplist. */
    method ReadListFromZipList() returns (err: Option<Ending>)
      modifies this`rest, this`calls
      ensures Did(Object(10, key, expiry, old(rest)), err)
    {
      hide ReadString, ZipList;
      match ReadString(rest)
      case Stop(why) => return Some(why);
      case Got(data, t) =>
        rest := t;
        err := ReadZipList(data);
        if err.None? {
          calls := calls + [ExpireAt(key, expiry)];
        }
    }

    method ReadListFromQuickList() returns (err: Option<Ending>)
      modifies this`rest, this`calls
      ensures Did(Object(14, key, expiry, old(rest)), err)
    {
      hide ReadCount, QuickList;
      match ReadCount(rest)
      case Stop(why) => return Some(why);
      case Got(count, t) =>
        rest := t;
        err := ReadQuickList(count);
        if err.None? {
          calls := calls + [ExpireAt(key, expiry)];
        }
    }

    method ReadObject(dtype: byte) returns (err: Option<Ending>)
      modifies this`rest, this`calls
      ensures Did(Object(dtype, key, expiry, old(rest)), err)
    {
      if dtype == 0 {
        hide ReadString;
        match ReadString(rest)
        case Stop(why) => return Some(why);
        case Got(data, t) =>
          rest := t;
          calls := calls + [CmdSet(key, data, expiry)];
          return None;
      }
      hide ReadString, ReadCount, ZipList, QuickList, Counted, WithExpiry;
      if dtype == 1 {
        err := ReadCounted(List);
      } else if dtype == 2 {
        err := ReadCounted(Set);
      } else if dtype == 4 {
        err := ReadCounted(Hash);
      } else if dtype == 10 {
        err := ReadListFromZipList();
      } else if dtype == 14 {
        err := ReadListFromQuickList();
      } else {
        err := Some(NotModelled);
      }
    }

    /** Reads the end mark's checksum, or what follows any other type byte. */
    method ReadBody(dtype: byte, version: int) returns (err: Option<Ending>, over: bool)
      modifies this`rest, this`calls, this`key
      ensures
        var round := Body(dtype, old(expiry), old(rest), version);
        Did(round.ran, err) && over == round.over
    {
      hide ReadString, ReadCount, Object;
      over := true;
      if dtype == 254 {
        match ReadCount(rest)
        case Stop(why) => return Some(why), true;
        case Got(n, t) =>
          rest, calls := t, calls + [SelectDB(n)];
          return None, false;
      } else if dtype == 250 {
        match ReadString(rest)
        case Stop(why) => return Some(why), true;
        case Got(name, t) =>
          match ReadString(t)
          case Stop(why) => return Some(why), true;
          case Got(value, u) =>
            rest, calls := u, calls + [AuxField(name, value)];
            return None, false;
      } else if dtype == 251 {
        match ReadCount(rest)
        case Stop(why) => return Some(why), true;
        case Got(size, t) =>
          match ReadCount(t)
          case Stop(why) => return Some(why), true;
          case Got(expires, u) =>
            rest, calls := u, calls + [ResizeDB(size, expires)];
            return None, false;
      } else if dtype == 247 {
        return Some(NotModelled), true;
      } else if dtype == 255 {
        calls := calls + [EndOfRDB];
        if version >= 5 {
          if |rest| < 8 {
            return Some(Short), true;
          }
          rest := rest[8..];
        }
        return None, true;
      }
      match ReadString(rest)
      case Stop(why) => return Some(why), true;
      case Got(name, t) =>
        rest, key := t, name;
        err := ReadObject(dtype);
        over := err.Some?;
    }

    method ReadRound(version: int) returns (err: Option<Ending>, over: bool)
      modifies this
      ensures
        var round := OneRound(old(rest), version);
        Did(round.ran, err) && over == round.over
    {
      hide ReadExpire, ReadIdleAndFreq, Body;
      expiry := 0;
      if rest == [] {
        return Some(Short), true;
      }
      var dtype := rest[0];
      rest := rest[1..];
      match ReadExpire(dtype, rest)
      case Stop(why) => return Some(why), true;
      case Got((at, next), t) =>
        expiry, dtype, rest := at, next, t;
      match ReadIdleAndFreq(dtype, rest)
      case Stop(why) => return Some(why), true;
      case Got(next, t) =>
        dtype, rest := next, t;
      err, over := ReadBody(dtype, version);
    }

    /**
     `bgSyncProc`. On a printed dump, whatever follows it and whatever key and expiry the
     reader was left with, it makes exactly the callbacks of the dump, reports no error and
     stops behind the dump.
     */
    method BgSyncProc() returns (err: Option<Ending>)
      modifies this
      ensures Did(Sync(old(rest)), err)
      ensures forall d, tail :: ValidDump(d) && old(rest) == PrintDump(d) + tail ==>
        err == None && rest == tail && calls == old(calls) + AllCalls(d.records) + [EndOfRDB]
    {
      err := ReadStream();
      hide Sync, AllCalls, PrintDump, ValidDump;
      forall d, tail | ValidDump(d) && old(rest) == PrintDump(d) + tail
        ensures err == None && rest == tail && calls == old(calls) + AllCalls(d.records) + [EndOfRDB]
      {
        DumpRoundTrip(d, tail);
        assert old(calls) + (AllCalls(d.records) + [EndOfRDB]) == old(calls) + AllCalls(d.records) + [EndOfRDB];
      }
    }

    /** The header, then round after round. */
    method ReadStream() returns (err: Option<Ending>)
      modifies this
      ensures Did(Sync(old(rest)), err)
    {
      hide OneRound;
      if |rest| < 9 {
        return Some(Short);
      }
      var head := rest[..9];
      rest := rest[9..];
      if AsText(head[..5]) != "REDIS" {
        return Some(BadHeader);
      }
      var parsed := Decimal.ParseInt(AsText(head[5..]));
      if parsed.None? {
        return Some(BadHeader);
      }
      var version := parsed.value;
      ghost var done: seq<Call> := [];
      var over := false;
      err := None;
      while !over
        invariant calls == old(calls) + done
        invariant !over ==> Sync(old(rest)) == Prepend(done, Records(rest, version))
        invariant over ==> Sync(old(rest)).calls == done && Ends(Sync(old(rest)).end, err, rest)
        decreases !over, |rest|
      {
        ghost var round := OneRound(rest, version);
        err, over := ReadRound(version);
        done := done + round.ran.calls;
      }
    }
  }
}
