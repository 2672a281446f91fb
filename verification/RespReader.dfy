/**
 The decoding methods of proxy/proto/redis/resp.go over the read buffer, with the reuse of
 item objects. Objects are values here: a method takes the object found and returns it
 rewritten.
 */
module RespReader {
  import opened Decimal
  import opened Text
  import opened Resp
  import opened ReadBuffer

  /** An item object. `elems` may hold leftovers of earlier use beyond the first `size`. */
  datatype Item = Item(kind: char, data: string, elems: seq<Item>, size: nat)

  const UNKNOWN := '0'

  const NEW_ITEM := Item(UNKNOWN, "", [], 0)

  ghost predicate Valid(o: Item) {
    o.size <= |o.elems| && forall i :: 0 <= i < |o.elems| ==> Valid(o.elems[i])
  }

  /** What an object stands for; leftovers do not count. */
  function View(o: Item): Resp
    requires Valid(o)
  {
    Resp(o.kind, o.data, seq(o.size, i requires 0 <= i < o.size => View(o.elems[i])))
  }

  /** Objects that stand for these values. */
  ghost predicate Views(items: seq<Item>, views: seq<Resp>) {
    |items| == |views| && forall i :: 0 <= i < |items| ==> Valid(items[i]) && View(items[i]) == views[i]
  }

  function Reset(o: Item): Item {
    o.(kind := UNKNOWN, data := "", size := 0)
  }

  /** The object behind the next element: a leftover if there is one. */
  function NextElem(o: Item): (e: Item)
    requires o.size <= |o.elems|
  {
    if o.size < |o.elems| then Reset(o.elems[o.size]) else NEW_ITEM
  }

  /** The parent after its next element became `e`. */
  function Push(o: Item, e: Item): Item
    requires o.size <= |o.elems|
  {
    if o.size < |o.elems| then o.(elems := o.elems[o.size := e], size := o.size + 1)
    else o.(elems := o.elems + [e], size := o.size + 1)
  }

  lemma NextIsValid(o: Item)
    requires Valid(o)
    ensures Valid(NextElem(o))
  {
  }

  lemma {:induction false} PushView(o: Item, e: Item)
    requires Valid(o) && Valid(e)
    ensures Valid(Push(o, e)) && View(Push(o, e)) == View(o).(elems := View(o).elems + [View(e)])
  {
    var p := Push(o, e);
    forall i | 0 <= i < |p.elems|
      ensures Valid(p.elems[i])
    {
      assert i == o.size || p.elems[i] == o.elems[i];
    }
    assert View(p).elems == View(o).elems + [View(e)];
  }

  /** Writing the header fields of an object leaves its elements alone. */
  lemma {:induction false} HeaderView(o: Item, kind: char, data: string)
    requires Valid(o)
    ensures Valid(o.(kind := kind, data := data))
    ensures View(o.(kind := kind, data := data)) == View(o).(kind := kind, data := data)
  {
    assert View(o.(kind := kind, data := data)).elems == View(o).elems;
  }

  lemma {:induction false} LeafView(o: Item, kind: char, data: string)
    requires Valid(o) && o.size == 0
    ensures Valid(o.(kind := kind, data := data))
    ensures View(o.(kind := kind, data := data)) == Resp(kind, data, [])
  {
    HeaderView(o, kind, data);
    assert View(o).elems == [];
  }

  /** `copy` makes the target stand for the source, whatever it held before. */
  method Copy(o: Item, re: Item) returns (r: Item)
    requires Valid(o) && Valid(re)
    ensures Valid(r) && View(r) == View(re)
    decreases re
  {
    r := Reset(o).(kind := re.kind, data := re.data);
    for i := 0 to re.size
      invariant Valid(r) && View(r) == Resp(re.kind, re.data, View(re).elems[..i])
    {
      var e := Copy(NextElem(r), re.elems[i]);
      PushView(r, e);
      r := Push(r, e);
    }
    assert View(re).elems[..re.size] == View(re).elems;
  }

  // ---------------------------------------------------------------- decode

  datatype Result = Ok | Full | Malformed | Panic | Io(e: IoError)

  /** That an outcome of the methods is the one the specification computes. */
  ghost predicate Agrees(p: Parsed, v: Resp, e: Result, moved: int) {
    match p
    case Done(x, n) => e == Ok && v == x && moved == n
    case Short => e == Full && moved == 0
    case Bad => e == Malformed
    case Crash => e == Panic
  }

  ghost function Prepend(vs: seq<Resp>, m: nat, p: ParsedAll): ParsedAll {
    match p
    case DoneAll(ws, k) => DoneAll(vs + ws, m + k)
    case Stopped(why) => p
  }

  /** `vs` in `m` bytes, followed by `k` items of `u`, are what `whole` is about. */
  ghost predicate Partway(vs: seq<Resp>, m: nat, u: string, k: nat, whole: ParsedAll) {
    Prepend(vs, m, ParseAll(u, k)) == whole
  }

  lemma {:induction false} PartwayStep(vs: seq<Resp>, m: nat, u: string, k: nat, whole: ParsedAll)
    requires k > 0 && Parse(u).Done? && Partway(vs, m, u, k, whole)
    ensures Partway(vs + [Parse(u).value], m + Parse(u).size, u[Parse(u).size..], k - 1, whole)
  {
    hide Parse;
    var v, n := Parse(u).value, Parse(u).size;
    var p := ParseAll(u[n..], k - 1);
    if p.DoneAll? {
      assert (vs + [v]) + p.values == vs + ([v] + p.values);
    }
  }

  /** Decodes one item. Short input leaves the read position where it was, at any depth. */
  method Decode(br: Reader, was: Item) returns (o: Item, e: Result)
    requires br.Valid() && Valid(was)
    modifies br.b`r
    ensures br.Valid() && Valid(o)
    ensures br.err != NoError ==> e == Io(br.err) && br.b.r == old(br.b.r)
    ensures br.err == NoError ==> Agrees(Parse(old(br.b.Unread())), View(o), e, br.b.r - old(br.b.r))
    decreases |br.b.Unread()|, 0
  {
    ghost var s := br.b.Unread();
    o := Reset(was);
    var line, ioe := br.ReadLine();
    if ioe == BufferFull && br.err == NoError {
      return o, Full;
    } else if ioe != NoError {
      return o, Io(ioe);
    }
    var ls := |line|;
    assert line[0] == s[0] && (ls > 2 ==> line[1..ls - 2] == s[1..ls - 2]);
    o := o.(kind := line[0]);
    if line[0] == '+' || line[0] == ':' || line[0] == '-' {
      o := o.(data := line[1..ls - 2]);
      return o, Ok;
    } else if line[0] == '$' {
      o, e := DecodeBulk(br, o, line, s);
    } else if line[0] == '*' {
      o, e := DecodeArray(br, o, line, s);
    } else {
      o, e := DecodeInline(o, line);
    }
  }

  method DecodeInline(was: Item, line: string) returns (o: Item, e: Result)
    requires Valid(was) && |line| >= 2
    ensures Valid(o) && Agrees(Inline(line), View(o), e, |line|)
  {
    o := was;
    var words := Fields(line);
    if words == [] {
      return o, Malformed;
    }
    var elems: seq<Item> := [];
    for i := 0 to |words|
      invariant |elems| == i
      invariant forall j :: 0 <= j < i ==> elems[j] == Item('$', Itoa(|words[j]|) + CRLF + words[j], [], 0)
    {
      elems := elems + [Item('$', Itoa(|words[i]|) + CRLF + words[i], [], 0)];
    }
    o := Item('*', Itoa(|words|), elems, |words|);
    forall i | 0 <= i < |words|
      ensures View(elems[i]) == InlineWord(words[i])
    {
      assert View(elems[i]).elems == [];
    }
    assert View(o).elems == Inline(line).value.elems;
    return o, Ok;
  }

  /** `s` are the unread bytes from the start of the header line. */
  method DecodeBulk(br: Reader, was: Item, line: string, ghost s: string) returns (o: Item, e: Result)
    requires br.Valid() && Valid(was) && was.data == "" && was.size == 0 && was.kind == '$' && br.err == NoError
    requires IndexCrlf(s) > 0 && line == s[..IndexCrlf(s) + 2]
    requires br.b.r >= |line| && br.b.buf[br.b.r - |line|..br.b.w] == s
    modifies br.b`r
    ensures br.Valid() && Valid(o)
    ensures Agrees(Bulk(s, IndexCrlf(s)), View(o), e, br.b.r - (old(br.b.r) - |line|))
  {
    hide ParseInt, Wrap64;
    o := was;
    LeafView(o, '$', "");
    var ls := |line|;
    ghost var len := s[1..ls - 2];
    assert line[1..ls - 2] == len;
    var bulkLength := Btoi(line[1..ls - 2]);
    if bulkLength.None? {
      return o, Malformed;
    }
    if bulkLength.value == -1 {
      return o, Ok;
    }
    o, e := ReadBulk(br, o, ls, bulkLength.value, s);
  }

  /** The second half, once the length is known: step back and take header and payload at once. */
  method ReadBulk(br: Reader, was: Item, ls: nat, n: int, ghost s: string) returns (o: Item, e: Result)
    requires br.Valid() && Valid(was) && was.size == 0 && was.kind == '$' && br.err == NoError
    requires br.b.r >= ls && br.b.buf[br.b.r - ls..br.b.w] == s
    modifies br.b`r
    ensures br.Valid() && Valid(o)
    ensures
      var all := Wrap64(ls + n + 2);
      Agrees(if |s| < all then Short else if all < 3 then Crash else Done(Resp('$', s[1..all - 2], []), all),
             View(o), e, br.b.r - (old(br.b.r) - ls))
  {
    o := was;
    br.b.Advance(0 - ls);
    assert br.b.Unread() == s;
    var all := Wrap64(ls + n + 2);
    if all < 0 {
      return o, Panic;
    }
    var data, ioe := br.ReadExact(all);
    if ioe == BufferFull {
      return o, Full;
    }
    if |data| < 3 {
      return o, Panic;
    }
    assert data[1..all - 2] == s[1..all - 2] by {
      assert data == s[..all];
    }
    LeafView(o, '$', data[1..all - 2]);
    o := o.(kind := '$', data := data[1..|data| - 2]);
    return o, Ok;
  }

  method DecodeArray(br: Reader, was: Item, line: string, ghost s: string) returns (o: Item, e: Result)
    requires br.Valid() && Valid(was) && was.data == "" && was.size == 0 && was.kind == '*' && br.err == NoError
    requires IndexCrlf(s) > 0 && s[0] == '*' && line == s[..IndexCrlf(s) + 2]
    requires br.b.r >= |line| && br.b.buf[br.b.r - |line|..br.b.w] == s
    modifies br.b`r
    ensures br.Valid() && Valid(o)
    ensures Agrees(Parse(s), View(o), e, br.b.r - (old(br.b.r) - |line|))
    decreases |br.b.Unread()|, 3
  {
    o := was;
    var ls := |line|;
    assert line[1..ls - 2] == s[1..ls - 2] && br.b.Unread() == s[ls..];
    var arrayLength := Btoi(line[1..ls - 2]);
    if arrayLength.None? {
      return o, Malformed;
    }
    if arrayLength.value == -1 {
      return o, Ok;
    }
    o := o.(data := line[1..ls - 2]);
    o, e := DecodeElems(br, o, ls, if arrayLength.value < 0 then 0 else arrayLength.value);
  }

  /** The outcome of an element that stops the array. */
  ghost predicate StopsWith(p: Parsed, e: Result) {
    match p
    case Done(_, _) => false
    case Short => e == Full
    case Bad => e == Malformed
    case Crash => e == Panic
  }

  /** Where a partly decoded array stands. */
  datatype Progress = Progress(len: string, kids: seq<Resp>, moved: nat, unread: string, left: nat, whole: ParsedAll)

  ghost predicate InArray(o: Item, st: Progress) {
    && Valid(o) && View(o) == Resp('*', st.len, st.kids)
    && Partway(st.kids, st.moved, st.unread, st.left, st.whole)
  }

  ghost function Advanced(st: Progress): Progress
    requires Parse(st.unread).Done? && st.left > 0
  {
    var p := Parse(st.unread);
    st.(kids := st.kids + [p.value], moved := st.moved + p.size, unread := st.unread[p.size..], left := st.left - 1)
  }

  /** One element of an array: the next object is decoded and counted. */
  method DecodeElem(br: Reader, was: Item, ghost st: Progress) returns (o: Item, e: Result)
    requires br.Valid() && br.err == NoError && br.b.Unread() == st.unread && st.left > 0 && InArray(was, st)
    modifies br.b`r
    ensures br.Valid() && Valid(o)
    ensures e == Ok <==> Parse(st.unread).Done?
    ensures e == Ok ==> InArray(o, Advanced(st)) && br.b.Unread() == Advanced(st).unread
    ensures e == Ok ==> br.b.r == old(br.b.r) + Advanced(st).moved - st.moved
    ensures e != Ok ==> StopsWith(Parse(st.unread), e)
    decreases |br.b.Unread()|, 1
  {
    hide Parse, View, Partway;
    NextIsValid(was);
    var child;
    child, e := Decode(br, NextElem(was));
    o := was;
    if e == Ok {
      PushView(was, child);
      o := Push(was, child);
      UnreadAfter(br.b, old(br.b.r), st.unread);
      PartwayStep(st.kids, st.moved, st.unread, st.left, st.whole);
    }
  }

  /** The loop over the elements, with the rollback to the start of the array's header. */
  method DecodeElems(br: Reader, was: Item, ls: nat, n: nat) returns (o: Item, e: Result)
    requires br.Valid() && Valid(was) && was.size == 0 && was.kind == '*' && br.err == NoError && br.b.r >= ls
    modifies br.b`r
    ensures br.Valid() && Valid(o)
    ensures Agrees(Whole(was.data, ls, ParseAll(old(br.b.Unread()), n)), View(o), e, br.b.r - (old(br.b.r) - ls))
    decreases |br.b.Unread()|, 2
  {
    o := was;
    var mark := br.Mark();
    ghost var st := Progress(was.data, [], 0, br.b.Unread(), n, ParseAll(br.b.Unread(), n));
    ArrayStart(o, st);
    hide InArray, Parse, ParseAll, View, Valid, Agrees, Whole, StopsWith;
    for i := 0 to n
      invariant br.Valid() && InArray(o, st) && br.b.Unread() == st.unread && br.b.r == mark + st.moved
      invariant st.left == n - i && st.len == was.data && st.whole == ParseAll(old(br.b.Unread()), n)
    {
      ghost var before := o;
      o, e := DecodeElem(br, o, st);
      if e != Ok {
        ArrayStopped(ls, before, st, View(o), e);
        br.AdvanceTo(mark);
        br.b.Advance(0 - ls);
        return;
      }
      st := Advanced(st);
    }
    ArrayDone(ls, o, st);
    e := Ok;
  }

  lemma {:induction false} ArrayStart(o: Item, st: Progress)
    requires Valid(o) && o.size == 0 && o.kind == '*' && o.data == st.len
    requires st.kids == [] && st.moved == 0 && st.whole == ParseAll(st.unread, st.left)
    ensures InArray(o, st)
  {
    hide ParseAll;
    LeafView(o, '*', st.len);
    if st.whole.DoneAll? {
      assert [] + st.whole.values == st.whole.values;
    }
  }

  /** A failing element decides the array. */
  lemma {:induction false} ArrayStopped(header: nat, o: Item, st: Progress, v: Resp, e: Result)
    requires InArray(o, st) && st.left > 0 && StopsWith(Parse(st.unread), e)
    ensures st.whole.Stopped? && !st.whole.why.Done? && Agrees(Whole(st.len, header, st.whole), v, e, 0)
  {
    hide Parse;
  }

  lemma ArrayDone(header: nat, o: Item, st: Progress)
    requires InArray(o, st) && st.left == 0
    ensures Valid(o) && st.whole.DoneAll?
    ensures Agrees(Whole(st.len, header, st.whole), View(o), Ok, header + st.moved)
  {
  }

  lemma UnreadAfter(b: Buffer, start: nat, s: string)
    requires b.Valid() && start <= b.r && s == b.buf[start..b.w]
    ensures b.Unread() == s[b.r - start..]
  {
  }
}
