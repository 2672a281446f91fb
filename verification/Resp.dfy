/**
 The RESP codec of proxy/proto/redis/resp.go as functions on byte strings. Bytes are
 characters below 256; nothing depends on a byte beyond its ASCII meaning.
 */
module Resp {
  import opened Common
  import opened Decimal
  import opened Text

  /**
   A decoded item. As in the original, `data` of a bulk string keeps the length line
   ("3\r\nfoo"), and `data` of an array is its length; both are empty for the null forms.
   */
  datatype Resp = Resp(kind: char, data: string, elems: seq<Resp>)

  predicate IsPlain(kind: char) { kind == '+' || kind == ':' || kind == '-' }

  // ---------------------------------------------------------------- encode

  const CRLF: string := "\r\n"

  function Encode(v: Resp): string {
    if IsPlain(v.kind) then [v.kind] + v.data + CRLF
    else if v.kind == '$' then "$" + OrNull(v.data) + CRLF
    else if v.kind == '*' then "*" + OrNull(v.data) + CRLF + EncodeAll(v.elems)
    else ""
  }

  function OrNull(data: string): string { if data == "" then "-1" else data }

  function EncodeAll(vs: seq<Resp>): string {
    if vs == [] then "" else Encode(vs[0]) + EncodeAll(vs[1..])
  }

  // ---------------------------------------------------------------- decode

  /** `Short` asks for more input; `Crash` is a slice bound the original does not check. */
  datatype Parsed = Done(value: Resp, size: nat) | Short | Bad | Crash

  datatype ParsedAll = DoneAll(values: seq<Resp>, total: nat) | Stopped(why: Parsed)

  /** 64-bit wrap-around of the size computed for a bulk string. */
  function Wrap64(n: int): int {
    (n - INT64_MIN) % 0x1_0000_0000_0000_0000 + INT64_MIN
  }

  /** The telnet form: words on a line become an array of bulk strings. */
  function Inline(line: string): Parsed {
    var words := Fields(line);
    if words == [] then Bad
    else Done(Resp('*', Itoa(|words|), seq(|words|, i requires 0 <= i < |words| => InlineWord(words[i]))), |line|)
  }

  function InlineWord(word: string): Resp {
    Resp('$', Itoa(|word|) + CRLF + word, [])
  }

  function Bulk(s: string, end: nat): (p: Parsed)
    requires end + 2 <= |s| && end > 0
    ensures p.Done? ==> 0 < p.size <= |s|
  {
    match ParseInt(s[1..end])
    case None => Bad
    case Some(n) =>
      if n == -1 then Done(Resp('$', "", []), end + 2)
      else
        var all := Wrap64(end + 2 + n + 2);
        if |s| < all then Short
        else if all < 3 then Crash
        else Done(Resp('$', s[1..all - 2], []), all)
  }

  /** What one call of `decode` makes of the unread bytes `s`. */
  function Parse(s: string): (p: Parsed)
    ensures p.Done? ==> 0 < p.size <= |s|
    decreases |s|, 0
  {
    var end := IndexCrlf(s);
    if end < 0 then Short
    else if IsPlain(s[0]) then Done(Resp(s[0], s[1..end], []), end + 2)
    else if s[0] == '$' then Bulk(s, end)
    else if s[0] != '*' then Inline(s[..end + 2])
    else match ParseInt(s[1..end])
      case None => Bad
      case Some(-1) => Done(Resp('*', "", []), end + 2)
      case Some(n) => Whole(s[1..end], end + 2, ParseAll(s[end + 2..], if n < 0 then 0 else n))
  }

  /** An array from its header and its items. */
  function Whole(len: string, header: nat, items: ParsedAll): (p: Parsed)
    requires items.Stopped? ==> !items.why.Done?
    ensures p.Done? <==> items.DoneAll?
    ensures p.Done? ==> p.size == header + items.total
  {
    match items
    case Stopped(why) => why
    case DoneAll(vs, m) => Done(Resp('*', len, vs), header + m)
  }

  /** `n` items in a row. */
  function ParseAll(s: string, n: nat): (p: ParsedAll)
    ensures p.DoneAll? ==> p.total <= |s| && |p.values| == n
    ensures p.Stopped? ==> !p.why.Done?
    decreases |s|, n + 1
  {
    if n == 0 then DoneAll([], 0)
    else match Parse(s)
      case Done(v, m) =>
        (match ParseAll(s[m..], n - 1)
         case DoneAll(vs, k) => DoneAll([v] + vs, m + k)
         case Stopped(why) => Stopped(why))
      case other => Stopped(other)
  }

  // ---------------------------------------------------------------- more input changes nothing

  lemma {:induction false} BulkExtends(s: string, t: string, end: nat)
    requires 0 < end && end + 2 <= |s| && !Bulk(s, end).Short?
    ensures Bulk(s + t, end) == Bulk(s, end)
  {
    assert (s + t)[1..end] == s[1..end];
    if ParseInt(s[1..end]).Some? {
      var all := Wrap64(end + 2 + ParseInt(s[1..end]).value + 2);
      if 3 <= all <= |s| {
        assert (s + t)[1..all - 2] == s[1..all - 2];
      }
    }
  }

  lemma SlicesExtend(s: string, t: string, end: nat)
    requires 0 < end && end + 2 <= |s|
    ensures (s + t)[0] == s[0] && (s + t)[1..end] == s[1..end]
    ensures (s + t)[..end + 2] == s[..end + 2] && (s + t)[end + 2..] == s[end + 2..] + t
  {
  }

  /** Once an item is decided, bytes that arrive later cannot change it. */
  lemma {:induction false} ParseExtends(s: string, t: string)
    requires !Parse(s).Short?
    ensures Parse(s + t) == Parse(s)
    decreases |s|, 0
  {
    var end := IndexCrlf(s);
    IndexExtends(s, t);
    if end == 0 {
      assert (s + t)[..2] == s[..2];
    } else {
      SlicesExtend(s, t, end);
      if s[0] == '$' {
        BulkExtends(s, t, end);
      } else if s[0] == '*' && ParseInt(s[1..end]).Some? && ParseInt(s[1..end]).value != -1 {
        var n := ParseInt(s[1..end]).value;
        ParseAllExtends(s[end + 2..], t, if n < 0 then 0 else n);
      }
    }
  }

  lemma {:induction false} ParseAllExtends(s: string, t: string, n: nat)
    requires ParseAll(s, n) != Stopped(Short)
    ensures ParseAll(s + t, n) == ParseAll(s, n)
    decreases |s|, n + 1
  {
    hide Parse;
    if n != 0 {
      ParseExtends(s, t);
      if Parse(s).Done? {
        var m := Parse(s).size;
        assert (s + t)[m..] == s[m..] + t;
        ParseAllExtends(s[m..], t, n - 1);
      }
    }
  }

  // ---------------------------------------------------------------- round trip

  /** Sizes that leave the 64-bit size computation of a bulk string without overflow. */
  predicate SizeFits(n: int) { n < 0x4000_0000_0000_0000 }

  ghost predicate WellFormedBulk(data: string) {
    exists len: string, payload: string ::
      data == len + CRLF + payload && ParseInt(len) == Some(|payload|) && SizeFits(|data|)
  }

  /** The items the codec carries faithfully. */
  ghost predicate WellFormed(v: Resp) {
    if IsPlain(v.kind) then NoCrlf(v.data) && v.elems == []
    else if v.kind == '$' then (v.data == "" || WellFormedBulk(v.data)) && v.elems == []
    else if v.kind != '*' then false
    else if v.data == "" then v.elems == []
    else
      && ParseInt(v.data).Some? && ParseInt(v.data).value != -1
      && |v.elems| == (if ParseInt(v.data).value < 0 then 0 else ParseInt(v.data).value)
      && forall i :: 0 <= i < |v.elems| ==> WellFormed(v.elems[i])
  }

  lemma {:induction false} NumeralHasNoCrlf(s: string)
    requires IsNumeral(s)
    ensures NoCrlf(s)
  {
    forall i | 0 <= i < |s|
      ensures s[i] != '\n'
    {
      if HasSign(s) && i > 0 {
        assert s[i] == Unsigned(s)[i - 1];
      }
    }
  }

  /** The first line of `kind len \r\n rest` is what it looks like. */
  lemma {:induction false} HeaderLine(kind: char, text: string, rest: string)
    requires NoCrlf(text) && kind != '\r'
    ensures var s := [kind] + text + CRLF + rest;
      IndexCrlf(s) == 1 + |text| && s[0] == kind && s[1..1 + |text|] == text && s[3 + |text|..] == rest
  {
    var s := [kind] + text + CRLF + rest;
    forall j
      ensures !CrlfAt([kind] + text, j)
    {
      assert j >= 1 ==> (CrlfAt([kind] + text, j) <==> CrlfAt(text, j - 1));
    }
    IndexAfterText([kind] + text, rest);
  }

  /** A bulk string whose header line announces `size` bytes. */
  lemma {:induction false} BulkBody(s: string, len: string, data: string, size: nat)
    requires IndexCrlf(s) == 1 + |len| && s[0] == '$' && s[1..1 + |len|] == len
    requires ParseInt(len) == Some(size) && |data| == |len| + 2 + size && SizeFits(|data|)
    requires |data| + 3 <= |s| && s[1..|data| + 1] == data
    ensures Parse(s) == Done(Resp('$', data, []), |data| + 3)
  {
    hide ParseInt;
    assert Wrap64(1 + |len| + 2 + size + 2) == |data| + 3;
  }

  lemma {:induction false} BulkText(len: string, payload: string, rest: string)
    requires NoCrlf(len)
    ensures
      var data := len + CRLF + payload;
      var s := "$" + data + CRLF + rest;
      && IndexCrlf(s) == 1 + |len| && s[0] == '$' && s[1..1 + |len|] == len
      && |data| + 3 <= |s| && s[1..|data| + 1] == data
  {
    HeaderLine('$', len, payload + CRLF + rest);
    var data := len + CRLF + payload;
    assert "$" + data + CRLF + rest == ['$'] + len + CRLF + (payload + CRLF + rest);
  }

  lemma {:induction false} BulkRoundTrip(data: string, rest: string)
    requires WellFormedBulk(data)
    ensures Parse("$" + data + CRLF + rest) == Done(Resp('$', data, []), |data| + 3)
  {
    var len, payload :| data == len + CRLF + payload && ParseInt(len) == Some(|payload|) && SizeFits(|data|);
    NumeralHasNoCrlf(len);
    BulkText(len, payload, rest);
    BulkBody("$" + data + CRLF + rest, len, data, |payload|);
  }

  lemma {:induction false} PlainRoundTrip(kind: char, data: string, rest: string)
    requires IsPlain(kind) && NoCrlf(data)
    ensures Parse([kind] + data + CRLF + rest) == Done(Resp(kind, data, []), |data| + 3)
  {
    HeaderLine(kind, data, rest);
  }

  lemma {:induction false} NullRoundTrip(kind: char, rest: string)
    requires kind == '$' || kind == '*'
    ensures Parse([kind] + "-1" + CRLF + rest) == Done(Resp(kind, "", []), 5)
  {
    assert Unsigned("-1") == "1" && DigitsValue("1") == 1 by {
      assert "1"[..0] == "";
    }
    assert ParseInt("-1") == Some(-1);
    NumeralHasNoCrlf("-1");
    HeaderLine(kind, "-1", rest);
  }

  lemma {:induction false} ArrayRoundTrip(v: Resp, rest: string)
    requires WellFormed(v) && v.kind == '*' && v.data != ""
    requires ParseAll(EncodeAll(v.elems) + rest, |v.elems|) == DoneAll(v.elems, |EncodeAll(v.elems)|)
    ensures Parse(Encode(v) + rest) == Done(v, |Encode(v)|)
  {
    var body := EncodeAll(v.elems);
    hide ParseAll, Bulk, Inline, EncodeAll;
    NumeralHasNoCrlf(v.data);
    hide ParseInt;
    assert Encode(v) + rest == ['*'] + v.data + CRLF + (body + rest);
    HeaderLine('*', v.data, body + rest);
  }

  /** Decoding an encoding gives the item back and consumes exactly its bytes. */
  lemma {:induction false} RoundTrip(v: Resp, rest: string)
    requires WellFormed(v)
    ensures Parse(Encode(v) + rest) == Done(v, |Encode(v)|)
    decreases v, |v.elems| + 1
  {
    if IsPlain(v.kind) {
      PlainRoundTrip(v.kind, v.data, rest);
      assert Encode(v) + rest == [v.kind] + v.data + CRLF + rest;
    } else if v.data == "" {
      NullRoundTrip(v.kind, rest);
      assert EncodeAll(v.elems) == "";
      assert Encode(v) + rest == [v.kind] + "-1" + CRLF + rest;
    } else if v.kind == '$' {
      BulkRoundTrip(v.data, rest);
      assert Encode(v) + rest == "$" + v.data + CRLF + rest;
    } else {
      RoundTripFrom(v, 0, rest);
      assert v.elems[0..] == v.elems;
      ArrayRoundTrip(v, rest);
    }
  }

  /** The same for the elements of an array from position `k` on. */
  lemma {:induction false} RoundTripFrom(v: Resp, k: nat, rest: string)
    requires k <= |v.elems| && forall i :: 0 <= i < |v.elems| ==> WellFormed(v.elems[i])
    ensures ParseAll(EncodeAll(v.elems[k..]) + rest, |v.elems| - k) == DoneAll(v.elems[k..], |EncodeAll(v.elems[k..])|)
    decreases v, |v.elems| - k
  {
    hide Parse, WellFormed, Encode;
    var vs := v.elems[k..];
    if k < |v.elems| {
      RoundTrip(v.elems[k], EncodeAll(v.elems[k + 1..]) + rest);
      RoundTripFrom(v, k + 1, rest);
      assert vs[1..] == v.elems[k + 1..];
      RoundTripCons(vs, rest);
    } else {
      assert vs == [] && EncodeAll(vs) + rest == rest;
    }
  }

  lemma {:induction false} RoundTripCons(vs: seq<Resp>, rest: string)
    requires vs != []
    requires Parse(Encode(vs[0]) + (EncodeAll(vs[1..]) + rest)) == Done(vs[0], |Encode(vs[0])|)
    requires ParseAll(EncodeAll(vs[1..]) + rest, |vs| - 1) == DoneAll(vs[1..], |EncodeAll(vs[1..])|)
    ensures ParseAll(EncodeAll(vs) + rest, |vs|) == DoneAll(vs, |EncodeAll(vs)|)
  {
    EncodeAllCons(vs, rest);
    ParseAllCons(Encode(vs[0]), EncodeAll(vs[1..]) + rest, vs[0], vs[1..], |EncodeAll(vs[1..])|);
    HeadAndTail(vs);
  }

  lemma {:induction false} EncodeAllCons(vs: seq<Resp>, rest: string)
    requires vs != []
    ensures EncodeAll(vs) + rest == Encode(vs[0]) + (EncodeAll(vs[1..]) + rest)
    ensures |EncodeAll(vs)| == |Encode(vs[0])| + |EncodeAll(vs[1..])|
  {
    Associate(Encode(vs[0]), EncodeAll(vs[1..]), rest);
  }

  lemma Associate(a: string, b: string, c: string)
    ensures (a + b) + c == a + (b + c)
  {
  }

  lemma HeadAndTail(vs: seq<Resp>)
    requires vs != []
    ensures [vs[0]] + vs[1..] == vs
  {
  }

  lemma {:induction false} ParseAllCons(first: string, tail: string, v: Resp, vs: seq<Resp>, total: nat)
    requires Parse(first + tail) == Done(v, |first|) && ParseAll(tail, |vs|) == DoneAll(vs, total)
    ensures ParseAll(first + tail, |vs| + 1) == DoneAll([v] + vs, |first| + total)
  {
    assert (first + tail)[|first|..] == tail;
  }

  // ---------------------------------------------------------------- the protocol's own values

  /** RESP values as the protocol specification lists them. */
  datatype Value =
    | SimpleString(text: string)
    | SimpleError(message: string)
    | Integer(number: int)
    | BulkString(bytes: string)
    | NullBulk
    | Array(items: seq<Value>)
    | NullArray

  /** Their wire format: Redis serialization protocol specification, "Bulk strings" and "Arrays". */
  function Wire(x: Value): string {
    match x
    case SimpleString(t) => "+" + t + "\r\n"
    case SimpleError(t) => "-" + t + "\r\n"
    case Integer(n) => ":" + Itoa(n) + "\r\n"
    case BulkString(b) => "$" + Itoa(|b|) + "\r\n" + b + "\r\n"
    case NullBulk => "$-1\r\n"
    case Array(items) => "*" + Itoa(|items|) + "\r\n" + WireAll(items)
    case NullArray => "*-1\r\n"
  }

  function WireAll(xs: seq<Value>): string {
    if xs == [] then "" else Wire(xs[0]) + WireAll(xs[1..])
  }

  /** How the codec stores a value. */
  function Stored(x: Value): Resp {
    match x
    case SimpleString(t) => Resp('+', t, [])
    case SimpleError(t) => Resp('-', t, [])
    case Integer(n) => Resp(':', Itoa(n), [])
    case BulkString(b) => Resp('$', Itoa(|b|) + CRLF + b, [])
    case NullBulk => Resp('$', "", [])
    case Array(items) => Resp('*', Itoa(|items|), StoredAll(items))
    case NullArray => Resp('*', "", [])
  }

  function StoredAll(xs: seq<Value>): (vs: seq<Resp>)
    ensures |vs| == |xs| && forall i :: 0 <= i < |xs| ==> vs[i] == Stored(xs[i])
  {
    if xs == [] then [] else [Stored(xs[0])] + StoredAll(xs[1..])
  }

  /** Line texts hold no line break, and lengths fit the original's integers. */
  ghost predicate Legal(x: Value) {
    match x
    case SimpleString(t) => NoCrlf(t)
    case SimpleError(t) => NoCrlf(t)
    case BulkString(b) => SizeFits(|Itoa(|b|) + CRLF + b|)
    case Array(items) => SizeFits(|items|) && forall i :: 0 <= i < |items| ==> Legal(items[i])
    case _ => true
  }

  lemma {:induction false} StoredEncodesToWire(x: Value)
    ensures Encode(Stored(x)) == Wire(x)
    decreases x, if x.Array? then |x.items| + 1 else 0
  {
    match x
    case Array(items) => StoredAllEncodeToWire(x, items);
    case BulkString(b) => assert "$" + (Itoa(|b|) + CRLF + b) + CRLF == "$" + Itoa(|b|) + "\r\n" + b + "\r\n";
    case _ =>
  }

  lemma {:induction false} StoredAllEncodeToWire(x: Value, items: seq<Value>)
    requires x.Array? && |items| <= |x.items| && items == x.items[|x.items| - |items|..]
    ensures EncodeAll(StoredAll(items)) == WireAll(items)
    decreases x, |items|
  {
    if items != [] {
      assert items[0] in x.items;
      StoredEncodesToWire(items[0]);
      StoredAllEncodeToWire(x, items[1..]);
      assert StoredAll(items)[1..] == StoredAll(items[1..]);
    }
  }

  lemma {:induction false} StoredIsWellFormed(x: Value)
    requires Legal(x)
    ensures WellFormed(Stored(x))
  {
    match x
    case Integer(n) =>
      ItoaRoundTrip(n);
      NumeralHasNoCrlf(Itoa(n));
    case BulkString(b) =>
      ItoaRoundTrip(|b|);
      assert Stored(x).data == Itoa(|b|) + CRLF + b;
    case Array(items) =>
      ItoaRoundTrip(|items|);
      forall i | 0 <= i < |items|
        ensures WellFormed(Stored(items[i]))
      {
        StoredIsWellFormed(items[i]);
      }
    case _ =>
  }

  /** Reading a value off the wire stores that value, and consumes exactly its wire form. */
  lemma {:induction false} WireRoundTrip(x: Value, rest: string)
    requires Legal(x)
    ensures Parse(Wire(x) + rest) == Done(Stored(x), |Wire(x)|)
  {
    StoredEncodesToWire(x);
    StoredIsWellFormed(x);
    RoundTrip(Stored(x), rest);
  }

  lemma {:induction false} PayloadIs(data: string, b: string)
    requires data == Itoa(|b|) + CRLF + b
    ensures IndexCrlf(data) == |Itoa(|b|)| && data[|Itoa(|b|)| + 2..] == b
  {
    ItoaRoundTrip(|b|);
    NumeralHasNoCrlf(Itoa(|b|));
    IndexAfterText(Itoa(|b|), b);
  }

  /** No two values are stored alike, so a decoder of stored items loses nothing. */
  lemma {:induction false} StoredInjective(x: Value, y: Value)
    requires Stored(x) == Stored(y)
    ensures x == y
  {
    match x
    case Integer(n) =>
      ItoaInjective(n, y.number);
    case BulkString(b) =>
      assert y.BulkString?;
      PayloadIs(Stored(x).data, b);
      PayloadIs(Stored(y).data, y.bytes);
    case Array(items) =>
      assert y.Array?;
      forall i | 0 <= i < |items|
        ensures items[i] == y.items[i]
      {
        assert Stored(items[i]) == Stored(x).elems[i] == Stored(y).elems[i];
        StoredInjective(items[i], y.items[i]);
      }
    case _ =>
  }

  // ---------------------------------------------------------------- headers that announce nothing sensible

  /** A header line and what may follow it. */
  function Headed(kind: char, text: string, rest: string): string { [kind] + text + CRLF + rest }

  /** What is no number is refused. */
  lemma {:induction false} NotANumber(kind: char, text: string, rest: string)
    requires (kind == '$' || kind == '*') && NoCrlf(text) && ParseInt(text).None?
    ensures Parse(Headed(kind, text, rest)) == Bad
  {
    hide ParseInt;
    HeaderLine(kind, text, rest);
  }

  /** An array of fewer elements than none is an array without elements. */
  lemma {:induction false} NegativeArray(n: int, rest: string)
    requires INT64_MIN <= n < -1
    ensures Parse(Headed('*', Itoa(n), rest)) == Done(Resp('*', Itoa(n), []), |Itoa(n)| + 3)
  {
    ItoaRoundTrip(n);
    NumeralHasNoCrlf(Itoa(n));
    hide ParseInt, Itoa;
    HeaderLine('*', Itoa(n), rest);
  }

  /**
   A bulk string of fewer bytes than none ends inside its own header line, or in front of it; the
   original panics when no byte would be left behind the `$` and the length of the line's end.
   */
  lemma {:induction false} NegativeBulk(n: int, rest: string)
    requires INT64_MIN <= n < -1
    ensures
      var text := Itoa(n);
      Parse(Headed('$', text, rest))
      == if n + |text| + 2 < 0 then Crash
         else Done(Resp('$', (text + CRLF)[..n + |text| + 2], []), n + |text| + 5)
  {
    var text := Itoa(n);
    ItoaRoundTrip(n);
    NumeralHasNoCrlf(text);
    ItoaLength(n);
    hide ParseInt, Itoa, ParseAll, Inline, Whole, NoCrlf;
    HeaderLine('$', text, rest);
    var s := Headed('$', text, rest);
    var all := n + |text| + 5;
    assert Wrap64(1 + |text| + 2 + n + 2) == all;
    if all >= 3 {
      assert s[1..all - 2] == (text + CRLF)[..all - 3];
    }
  }

  /** A length so large that the size computed from it wraps around is a panic, however much is there. */
  lemma {:induction false} HugeBulk(n: int, rest: string)
    requires 0 <= n <= INT64_MAX < n + |Itoa(n)| + 5
    ensures Parse(Headed('$', Itoa(n), rest)) == Crash
  {
    var text := Itoa(n);
    ItoaRoundTrip(n);
    NumeralHasNoCrlf(text);
    ItoaLength(n);
    hide ParseInt, Itoa, ParseAll, Inline, Whole, NoCrlf;
    HeaderLine('$', text, rest);
    assert Wrap64(1 + |text| + 2 + n + 2) == n + |text| + 5 - 0x1_0000_0000_0000_0000;
  }

  lemma {:induction false} ItoaLength(n: int)
    requires INT64_MIN <= n <= INT64_MAX
    ensures |Itoa(n)| <= 20
  {
    TenToThe19th();
    hide Pow10;
    DigitsShort(if n < 0 then -n else n, 19);
  }
}
