/**
 Redis dumps as they are printed, in every form the reader of anzi/rdb.go is to accept, and
 the proof that reading one gives back exactly its contents.
 */
module RdbDump {
  import opened Lzf
  import opened Rdb
  import Decimal

  // ---------------------------------------------------------------- numbers

  function ToBig(n: nat, k: nat): (r: seq<byte>)
    ensures |r| == k
  {
    if k == 0 then [] else ToBig(n / 256, k - 1) + [n % 256]
  }

  function ToLittle(n: nat, k: nat): (r: seq<byte>)
    ensures |r| == k
  {
    if k == 0 then [] else [n % 256] + ToLittle(n / 256, k - 1)
  }

  lemma {:induction false} BigRoundTrip(n: nat, k: nat)
    requires n < Pow256(k)
    ensures BigEndian(ToBig(n, k)) == n
  {
    if k > 0 {
      BigRoundTrip(n / 256, k - 1);
    }
  }

  lemma {:induction false} LittleRoundTrip(n: nat, k: nat)
    requires n < Pow256(k)
    ensures LittleEndian(ToLittle(n, k)) == n
  {
    if k > 0 {
      LittleRoundTrip(n / 256, k - 1);
    }
  }

  lemma {:induction false} Powers()
    ensures Pow256(1) == 256 && Pow256(2) == 0x1_0000
    ensures Pow256(4) == 0x1_0000_0000 && Pow256(8) == 0x1_0000_0000_0000_0000
  {
    assert Pow256(1) == 256;
    assert Pow256(2) == 256 * Pow256(1);
    assert Pow256(3) == 256 * Pow256(2);
    assert Pow256(4) == 256 * Pow256(3);
    assert Pow256(5) == 256 * Pow256(4);
    assert Pow256(6) == 256 * Pow256(5);
    assert Pow256(7) == 256 * Pow256(6);
    assert Pow256(8) == 256 * Pow256(7);
  }

  /** Taking printed bytes off the front. */
  lemma {:induction false} TakePrefix(a: seq<byte>, tail: seq<byte>)
    ensures Take(a + tail, |a|) == Got(a, tail)
  {
    assert (a + tail)[..|a|] == a && (a + tail)[|a|..] == tail;
  }

  // ---------------------------------------------------------------- lengths

  datatype LengthForm = Bits6 | Bits14 | Bits32 | Bits64

  predicate Fits(f: LengthForm, n: nat) {
    match f
    case Bits6 => n < 64
    case Bits14 => n < 16384
    case Bits32 => n < 0x1_0000_0000
    case Bits64 => n < 0x1_0000_0000_0000_0000
  }

  function PrintLength(f: LengthForm, n: nat): seq<byte>
    requires Fits(f, n)
  {
    match f
    case Bits6 => [n]
    case Bits14 => [64 + n / 256, n % 256]
    case Bits32 => [0x80] + ToBig(n, 4)
    case Bits64 => [0x81] + ToBig(n, 8)
  }

  lemma {:induction false} WideLength(head: byte, n: nat, k: nat, tail: seq<byte>)
    requires (head == 0x80 && k == 4) || (head == 0x81 && k == 8)
    requires n < Pow256(k)
    ensures ReadLength([head] + ToBig(n, k) + tail) == Got(Plain(n), tail)
  {
    var s := [head] + ToBig(n, k) + tail;
    assert s[0] == head && s[1..] == ToBig(n, k) + tail;
    TakePrefix(ToBig(n, k), tail);
    BigRoundTrip(n, k);
  }

  lemma {:induction false} LengthRoundTrip(f: LengthForm, n: nat, tail: seq<byte>)
    requires Fits(f, n)
    ensures ReadLength(PrintLength(f, n) + tail) == Got(Plain(n), tail)
    ensures ReadCount(PrintLength(f, n) + tail) == Got(n, tail)
  {
    var s := PrintLength(f, n) + tail;
    Powers();
    match f
    case Bits6 => assert s[1..] == tail;
    case Bits14 =>
      assert s[1..][1..] == tail;
    case Bits32 => WideLength(0x80, n, 4, tail);
    case Bits64 => WideLength(0x81, n, 8, tail);
  }

  // ---------------------------------------------------------------- strings

  /** A string that is a number may be stored as one, in two's complement. */
  datatype Width = Int8 | Int16 | Int32

  function Values(w: Width): nat {
    match w case Int8 => 256 case Int16 => 0x1_0000 case Int32 => 0x1_0000_0000
  }

  predicate InWidth(w: Width, n: int) { 0 <= 2 * n + Values(w) && 2 * n < Values(w) }

  function PrintInt(w: Width, n: int): seq<byte>
    requires InWidth(w, n)
  {
    var m := if n < 0 then n + Values(w) else n;
    match w
    case Int8 => [192, m]
    case Int16 => [193, m % 256, m / 256]
    case Int32 => [194, m % 256, m / 256 % 256, m / 65536 % 256, m / 16777216]
  }

  /** The characters of a decimal number, a byte each. */
  lemma {:induction false} TextIsDecimal(n: int)
    ensures |Text(n)| == |Decimal.Itoa(n)|
    ensures forall i :: 0 <= i < |Text(n)| ==> Text(n)[i] == Decimal.Itoa(n)[i] as int
  {
    Decimal.ItoaRoundTrip(n);
    var s := Decimal.Itoa(n);
    forall i | 0 <= i < |s|
      ensures s[i] as int < 256
    {
      assert Decimal.HasSign(s) && i > 0 ==> s[i] == Decimal.Unsigned(s)[i - 1];
      assert (Decimal.HasSign(s) && i == 0) || Decimal.IsDigit(s[i]);
    }
  }

  lemma {:induction false} TextInjective(a: int, b: int)
    requires Text(a) == Text(b)
    ensures a == b
  {
    hide Text, Decimal.Itoa;
    TextIsDecimal(a);
    TextIsDecimal(b);
    var x, y := Decimal.Itoa(a), Decimal.Itoa(b);
    assert forall i :: 0 <= i < |x| ==> x[i] as int == y[i] as int;
    assert x == y;
    Decimal.ItoaInjective(a, b);
  }

  lemma {:induction false} LittleBytes(b: seq<byte>)
    ensures |b| == 2 ==> LittleEndian(b) == b[0] as int + 256 * b[1] as int
    ensures |b| == 4 ==>
      LittleEndian(b) == b[0] as int + 256 * b[1] as int + 65536 * b[2] as int + 16777216 * b[3] as int
  {
    if |b| == 2 {
      assert LittleEndian(b[1..][1..]) == 0;
    } else if |b| == 4 {
      LittleBytes(b[2..]);
      assert b[1..][1..] == b[2..];
    }
  }

  lemma {:induction false} FourBytes(m: nat)
    ensures m % 256 + 256 * (m / 256 % 256) + 65536 * (m / 65536 % 256) + 16777216 * (m / 16777216) == m
  {
    var a := m / 256;
    var b := a / 256;
    assert m / 65536 == b;
    assert m / 16777216 == b / 256;
  }

  lemma {:induction false} IntRead(w: Width, n: int, tail: seq<byte>)
    requires InWidth(w, n) && w != Int8
    ensures ReadString(PrintInt(w, n) + tail) == Got(Text(n), tail)
  {
    Powers();
    hide Text, LittleEndian, Pow256;
    var s := PrintInt(w, n) + tail;
    var word := PrintInt(w, n)[1..];
    assert s[1..] == word + tail;
    TakePrefix(word, tail);
    LittleBytes(word);
    var m := if n < 0 then n + Values(w) else n;
    FourBytes(m);
    assert LittleEndian(word) == m;
    assert Signed(m, |word|) == n;
  }

  /** A number is read back, except that eight bits are taken for a number without a sign. */
  lemma {:induction false} IntReadExactly(w: Width, n: int, tail: seq<byte>)
    requires InWidth(w, n)
    ensures ReadString(PrintInt(w, n) + tail) == Got(Text(n), tail) <==> (w == Int8 ==> n >= 0)
    ensures w == Int8 && n < 0 ==> ReadString(PrintInt(w, n) + tail) == Got(Text(n + 256), tail)
  {
    if w == Int8 {
      hide Text;
      var m := if n < 0 then n + 256 else n;
      var s := PrintInt(w, n) + tail;
      assert s[0] == 192 && s[1..][0] == m && s[1..][1..] == tail;
      assert ReadString(s) == Got(Text(m), tail);
      if n < 0 && Text(m) == Text(n) {
        TextInjective(m, n);
      }
    } else {
      IntRead(w, n, tail);
    }
  }

  /** A stored -1 arrives as 255. */
  lemma {:induction false} MinusOneLost(tail: seq<byte>)
    ensures PrintInt(Int8, -1) == [192, 255]
    ensures ReadString(PrintInt(Int8, -1) + tail) == Got(Text(255), tail) && Text(255) != Text(-1)
  {
    hide Text;
    IntReadExactly(Int8, -1, tail);
    if Text(255) == Text(-1) {
      TextInjective(255, -1);
    }
  }

  /** A string as it stands in the dump: plain, as a number, or as LZF tokens. Longer ones than a slice can be panic. */
  datatype Str =
    | Raw(form: LengthForm, bytes: seq<byte>)
    | Number(width: Width, n: int)
    | Packed(cform: LengthForm, uform: LengthForm, tokens: seq<Token>)

  predicate ValidStr(x: Str) {
    match x
    case Raw(form, bytes) => Fits(form, |bytes|) && |bytes| <= MAKE_LIMIT
    case Number(width, n) => InWidth(width, n) && (width == Int8 ==> n >= 0)
    case Packed(cform, uform, tokens) =>
      && ValidTokens(tokens, 0) && Fits(cform, |EncodeAll(tokens, 0)|) && Fits(uform, |Expand(tokens, [])|)
      && |EncodeAll(tokens, 0)| <= MAKE_LIMIT && |Expand(tokens, [])| <= MAKE_LIMIT
  }

  function Meaning(x: Str): seq<byte>
    requires ValidStr(x)
  {
    match x
    case Raw(_, bytes) => bytes
    case Number(_, n) => Text(n)
    case Packed(_, _, tokens) => Expand(tokens, [])
  }

  function PrintStr(x: Str): seq<byte>
    requires ValidStr(x)
  {
    match x
    case Raw(form, bytes) => PrintLength(form, |bytes|) + bytes
    case Number(width, n) => PrintInt(width, n)
    case Packed(cform, uform, tokens) =>
      var packed := EncodeAll(tokens, 0);
      [195] + PrintLength(cform, |packed|) + PrintLength(uform, |Expand(tokens, [])|) + packed
  }

  lemma {:induction false} PackedRoundTrip(cform: LengthForm, uform: LengthForm, tokens: seq<Token>, tail: seq<byte>)
    requires ValidStr(Packed(cform, uform, tokens))
    ensures
      var packed := EncodeAll(tokens, 0);
      ReadPacked(PrintLength(cform,
        |packed|) + (PrintLength(uform, |Expand(tokens, [])|) + (packed + tail))) == Got(Expand(tokens, []), tail)
  {
    var packed, data := EncodeAll(tokens, 0), Expand(tokens, []);
    hide EncodeAll, Expand, ReadLength, ReadCount, PrintLength, Unpack, Fits;
    LengthRoundTrip(cform, |packed|, PrintLength(uform, |data|) + (packed + tail));
    LengthRoundTrip(uform, |data|, packed + tail);
    DecompressEncoded(tokens, [], |data|);
    assert Fit(packed + tail, |packed|) == packed && Fit(data, |data|) == data;
    assert (packed + tail)[|packed|..] == tail;
  }

  lemma {:induction false} StringRoundTrip(x: Str, tail: seq<byte>)
    requires ValidStr(x)
    ensures ReadString(PrintStr(x) + tail) == Got(Meaning(x), tail)
  {
    hide ReadPacked, PrintLength, Unpack, EncodeAll, Expand, Fits;
    match x
    case Raw(form, bytes) =>
      assert PrintStr(x) + tail == PrintLength(form, |bytes|) + (bytes + tail);
      LengthRoundTrip(form, |bytes|, bytes + tail);
      TakePrefix(bytes, tail);
    case Number(width, n) =>
      IntReadExactly(width, n, tail);
    case Packed(cform, uform, tokens) =>
      var packed := EncodeAll(tokens, 0);
      var rest := PrintLength(cform, |packed|) + (PrintLength(uform, |Expand(tokens, [])|) + (packed + tail));
      var s := PrintStr(x) + tail;
      assert s == [195] + rest;
      assert s[1..] == rest;
      PackedRoundTrip(cform, uform, tokens, tail);
  }

  // ---------------------------------------------------------------- elements

  /** An element, or a field and its value. */
  datatype Item = One(x: Str) | Pair(field: Str, x: Str)

  predicate ValidItem(kind: Kind, i: Item) {
    if kind == Hash then i.Pair? && ValidStr(i.field) && ValidStr(i.x) else i.One? && ValidStr(i.x)
  }

  ghost predicate ValidItems(kind: Kind, items: seq<Item>) {
    forall k :: 0 <= k < |items| ==> ValidItem(kind, items[k])
  }

  function PrintItem(kind: Kind, i: Item): seq<byte>
    requires ValidItem(kind, i)
  {
    if i.One? then PrintStr(i.x) else PrintStr(i.field) + PrintStr(i.x)
  }

  function ItemCall(kind: Kind, key: seq<byte>, i: Item): Call
    requires ValidItem(kind, i)
  {
    match kind
    case List => CmdRPush(key, Meaning(i.x))
    case Set => CmdSAdd(key, Meaning(i.x))
    case Hash => CmdHSet(key, Meaning(i.field), Meaning(i.x))
  }

  function PrintItems(kind: Kind, items: seq<Item>): seq<byte>
    requires ValidItems(kind, items)
  {
    if items == [] then [] else PrintItem(kind, items[0]) + PrintItems(kind, items[1..])
  }

  function ItemCalls(kind: Kind, key: seq<byte>, items: seq<Item>): (r: seq<Call>)
    requires ValidItems(kind, items)
    ensures |r| == |items| && forall k :: 0 <= k < |r| ==> r[k] == ItemCall(kind, key, items[k])
  {
    seq(|items|, k requires 0 <= k < |items| => ItemCall(kind, key, items[k]))
  }

  lemma {:induction false} ItemRoundTrip(kind: Kind, key: seq<byte>, i: Item, tail: seq<byte>)
    requires ValidItem(kind, i)
    ensures ReadItem(kind, key, PrintItem(kind, i) + tail) == Got(ItemCall(kind, key, i), tail)
  {
    hide ReadString, PrintStr, Meaning, ValidStr;
    if kind == Hash {
      assert PrintItem(kind, i) + tail == PrintStr(i.field) + (PrintStr(i.x) + tail);
      StringRoundTrip(i.field, PrintStr(i.x) + tail);
    }
    StringRoundTrip(i.x, tail);
  }

  lemma {:induction false} ItemsRoundTrip(kind: Kind, key: seq<byte>, items: seq<Item>, tail: seq<byte>)
    requires ValidItems(kind, items)
    ensures Items(kind, key, PrintItems(kind, items) + tail, |items|) == Ran(ItemCalls(kind, key, items), Got((), tail))
    decreases |items|
  {
    hide ReadItem, PrintItem, ItemCall, ValidItem;
    if items == [] {
      assert PrintItems(kind, items) + tail == tail;
    } else {
      var rest := PrintItems(kind, items[1..]) + tail;
      assert PrintItems(kind, items) + tail == PrintItem(kind, items[0]) + rest;
      ItemRoundTrip(kind, key, items[0], rest);
      ItemsRoundTrip(kind, key, items[1..], tail);
      assert ItemCalls(kind, key, items) == [ItemCall(kind, key, items[0])] + ItemCalls(kind, key, items[1..]);
    }
  }

  // ---------------------------------------------------------------- ziplists

  /** The length of the entry before, which the reader skips. */
  datatype Previous = Near(b: byte) | Far(n: nat)

  datatype EntryForm = Entry6 | Entry14 | Entry32(low: nat)

  datatype ZipEntry = ZipEntry(prev: Previous, form: EntryForm, bytes: seq<byte>)

  predicate ValidEntry(e: ZipEntry) {
    && (match e.prev case Near(b) => b != 254 case Far(n) => n < 0x1_0000_0000)
    && match e.form
       case Entry6 => |e.bytes| < 64
       case Entry14 => |e.bytes| < 16384
       case Entry32(low) => low < 64 && |e.bytes| < 0x1_0000_0000
  }

  function PrintPrevious(p: Previous): seq<byte> {
    match p case Near(b) => [b] case Far(n) => [254] + ToLittle(n, 4)
  }

  function PrintHeader(e: ZipEntry): seq<byte>
    requires ValidEntry(e)
  {
    match e.form
    case Entry6 => [|e.bytes|]
    case Entry14 => [64 + |e.bytes| / 256, |e.bytes| % 256]
    case Entry32(low) => [128 + low] + ToBig(|e.bytes|, 4)
  }

  function PrintEntry(e: ZipEntry): seq<byte>
    requires ValidEntry(e)
  {
    PrintPrevious(e.prev) + PrintHeader(e) + e.bytes
  }

  lemma {:induction false} PreviousRoundTrip(e: ZipEntry, tail: seq<byte>)
    requires ValidEntry(e)
    ensures SkipPrevious(PrintPrevious(e.prev) + tail) == Got((), tail)
  {
    var s := PrintPrevious(e.prev) + tail;
    match e.prev
    case Near(b) => assert s[1..] == tail;
    case Far(n) =>
      assert s[1..] == ToLittle(n, 4) + tail;
      TakePrefix(ToLittle(n, 4), tail);
  }

  lemma {:induction false} WideEntry(low: nat, n: nat, body: seq<byte>)
    requires low < 64 && n < 0x1_0000_0000
    ensures ZipString([128 + low] + ToBig(n, 4) + body) == Take(body, n)
  {
    hide ToBig, BigEndian;
    var t := [128 + low] + ToBig(n, 4) + body;
    assert t[1..] == ToBig(n, 4) + body;
    TakePrefix(ToBig(n, 4), body);
    Powers();
    BigRoundTrip(n, 4);
  }

  lemma {:induction false} EntryBody(e: ZipEntry, tail: seq<byte>)
    requires ValidEntry(e)
    ensures ZipString(PrintHeader(e) + (e.bytes + tail)) == Got(e.bytes, tail)
  {
    hide ToBig, BigEndian;
    var body := e.bytes + tail;
    TakePrefix(e.bytes, tail);
    if e.form.Entry32? {
      WideEntry(e.form.low, |e.bytes|, body);
    } else if e.form.Entry6? {
      assert (PrintHeader(e) + body)[1..] == body;
    } else {
      assert (PrintHeader(e) + body)[1..][1..] == body;
    }
  }

  lemma {:induction false} EntryRoundTrip(e: ZipEntry, tail: seq<byte>)
    requires ValidEntry(e)
    ensures ReadZipEntry(PrintEntry(e) + tail) == Got(e.bytes, tail)
  {
    hide SkipPrevious, ZipString, ValidEntry, PrintHeader, PrintPrevious;
    var body := PrintHeader(e) + (e.bytes + tail);
    assert PrintEntry(e) + tail == PrintPrevious(e.prev) + body;
    PreviousRoundTrip(e, body);
    EntryBody(e, tail);
  }

  datatype Zip = Zip(size: nat, tail: nat, entries: seq<ZipEntry>)

  predicate ValidZip(z: Zip) {
    && z.size < 0x1_0000_0000 && z.tail < 0x1_0000_0000 && |z.entries| < 0x1_0000
    && forall k :: 0 <= k < |z.entries| ==> ValidEntry(z.entries[k])
  }

  function PrintEntries(es: seq<ZipEntry>): seq<byte>
    requires forall k :: 0 <= k < |es| ==> ValidEntry(es[k])
  {
    if es == [] then [255] else PrintEntry(es[0]) + PrintEntries(es[1..])
  }

  function PrintZip(z: Zip): seq<byte>
    requires ValidZip(z)
  {
    ToLittle(z.size, 4) + ToLittle(z.tail, 4) + ToLittle(|z.entries|, 2) + PrintEntries(z.entries)
  }

  function EntryBytes(es: seq<ZipEntry>): (r: seq<seq<byte>>)
    ensures |r| == |es| && forall k :: 0 <= k < |r| ==> r[k] == es[k].bytes
  {
    seq(|es|, k requires 0 <= k < |es| => es[k].bytes)
  }

  function Pushes(key: seq<byte>, elements: seq<seq<byte>>): (r: seq<Call>)
    ensures |r| == |elements| && forall k :: 0 <= k < |r| ==> r[k] == CmdRPush(key, elements[k])
  {
    seq(|elements|, k requires 0 <= k < |elements| => CmdRPush(key, elements[k]))
  }

  lemma {:induction false} EntriesRoundTrip(key: seq<byte>, es: seq<ZipEntry>)
    requires forall k :: 0 <= k < |es| ==> ValidEntry(es[k])
    ensures ZipEntries(key, PrintEntries(es), |es|) == Ran(Pushes(key, EntryBytes(es)), Got((), []))
    decreases |es|
  {
    hide ReadZipEntry, PrintEntry, ValidEntry;
    if es != [] {
      EntryRoundTrip(es[0], PrintEntries(es[1..]));
      EntriesRoundTrip(key, es[1..]);
      assert Pushes(key, EntryBytes(es)) == [CmdRPush(key, es[0].bytes)] + Pushes(key, EntryBytes(es[1..]));
    } else {
      var end: seq<byte> := [255];
      assert PrintEntries(es) == end && end[1..] == [] && Pushes(key, EntryBytes(es)) == [];
    }
  }

  lemma {:induction false} ZipHeadRoundTrip(z: Zip)
    requires ValidZip(z)
    ensures ZipHead(PrintZip(z)) == Got(|z.entries|, PrintEntries(z.entries))
  {
    hide PrintEntries, ValidEntry, ToLittle, LittleEndian;
    var a, b, c, d := ToLittle(z.size, 4), ToLittle(z.tail, 4), ToLittle(|z.entries|, 2), PrintEntries(z.entries);
    assert PrintZip(z) == a + (b + (c + d));
    TakePrefix(a, b + (c + d));
    TakePrefix(b, c + d);
    TakePrefix(c, d);
    Powers();
    LittleRoundTrip(|z.entries|, 2);
  }

  lemma {:induction false} ZipRoundTrip(key: seq<byte>, z: Zip)
    requires ValidZip(z)
    ensures ZipList(key, PrintZip(z)) == Ran(Pushes(key, EntryBytes(z.entries)), Got((), []))
  {
    hide ZipHead, PrintZip, PrintEntries, ZipEntries;
    ZipHeadRoundTrip(z);
    EntriesRoundTrip(key, z.entries);
  }

  /** A ziplist inside a string. */
  datatype Node = Node(blob: Str, zip: Zip)

  predicate ValidNode(n: Node) { ValidStr(n.blob) && ValidZip(n.zip) && Meaning(n.blob) == PrintZip(n.zip) }

  ghost predicate ValidNodes(ns: seq<Node>) { forall k :: 0 <= k < |ns| ==> ValidNode(ns[k]) }

  function PrintNodes(ns: seq<Node>): seq<byte>
    requires ValidNodes(ns)
  {
    if ns == [] then [] else PrintStr(ns[0].blob) + PrintNodes(ns[1..])
  }

  function NodeElements(ns: seq<Node>): seq<seq<byte>> {
    if ns == [] then [] else EntryBytes(ns[0].zip.entries) + NodeElements(ns[1..])
  }

  lemma {:induction false} NodesRoundTrip(key: seq<byte>, ns: seq<Node>, tail: seq<byte>)
    requires ValidNodes(ns)
    ensures QuickList(key, PrintNodes(ns) + tail, |ns|) == Ran(Pushes(key, NodeElements(ns)), Got((), tail))
    decreases |ns|
  {
    hide ReadString, PrintStr, ZipList, PrintZip, ValidStr, ValidZip, Meaning;
    if ns == [] {
      assert PrintNodes(ns) + tail == tail;
    } else {
      var rest := PrintNodes(ns[1..]) + tail;
      assert PrintNodes(ns) + tail == PrintStr(ns[0].blob) + rest;
      StringRoundTrip(ns[0].blob, rest);
      ZipRoundTrip(key, ns[0].zip);
      NodesRoundTrip(key, ns[1..], tail);
      var here := EntryBytes(ns[0].zip.entries);
      assert Pushes(key, NodeElements(ns)) == Pushes(key, here) + Pushes(key, NodeElements(ns[1..]));
    }
  }

  // ---------------------------------------------------------------- values

  datatype Value =
    | StringValue(x: Str)
    | Collection(kind: Kind, form: LengthForm, items: seq<Item>)
    | ZipValue(node: Node)
    | QuickValue(form: LengthForm, nodes: seq<Node>)

  ghost predicate ValidValue(v: Value) {
    match v
    case StringValue(x) => ValidStr(x)
    case Collection(kind, form, items) => Fits(form, |items|) && ValidItems(kind, items)
    case ZipValue(node) => ValidNode(node)
    case QuickValue(form, nodes) => Fits(form, |nodes|) && ValidNodes(nodes)
  }

  function TypeByte(v: Value): byte {
    match v
    case StringValue(_) => 0
    case Collection(kind, _, _) => (match kind case List => 1 case Set => 2 case Hash => 4)
    case ZipValue(_) => 10
    case QuickValue(_, _) => 14
  }

  function PrintValue(v: Value): seq<byte>
    requires ValidValue(v)
  {
    match v
    case StringValue(x) => PrintStr(x)
    case Collection(kind, form, items) => PrintLength(form, |items|) + PrintItems(kind, items)
    case ZipValue(node) => PrintStr(node.blob)
    case QuickValue(form, nodes) => PrintLength(form, |nodes|) + PrintNodes(nodes)
  }

  /** The elements of a list value in order, whatever its form. */
  function ListElements(v: Value): seq<seq<byte>>
    requires ValidValue(v)
  {
    match v
    case StringValue(_) => []
    case Collection(kind, _, items) =>
      seq(|items|, k requires 0 <= k < |items| => assert ValidItem(kind, items[k]); Meaning(items[k].x))
    case ZipValue(node) => EntryBytes(node.zip.entries)
    case QuickValue(_, nodes) => NodeElements(nodes)
  }

  predicate IsList(v: Value) { v.ZipValue? || v.QuickValue? || (v.Collection? && v.kind == List) }

  /** The callbacks that say the same as the value. */
  function ValueCalls(key: seq<byte>, v: Value, expiry: nat): seq<Call>
    requires ValidValue(v)
  {
    if v.StringValue? then [CmdSet(key, Meaning(v.x), expiry)]
    else if IsList(v) then Pushes(key, ListElements(v)) + [ExpireAt(key, expiry)]
    else ItemCalls(v.kind, key, v.items) + [ExpireAt(key, expiry)]
  }

  lemma {:induction false} CountedRoundTrip(kind: Kind, form: LengthForm, items: seq<Item>, key: seq<byte>,
      tail: seq<byte>)
    requires ValidItems(kind, items) && Fits(form, |items|)
    ensures Counted(kind, key,
      PrintLength(form, |items|) + PrintItems(kind, items) + tail) == Ran(ItemCalls(kind, key, items), Got((), tail))
  {
    hide PrintLength, PrintItems, ReadCount, Items, Fits, ValidItem;
    var rest := PrintItems(kind, items) + tail;
    assert PrintLength(form, |items|) + PrintItems(kind, items) + tail == PrintLength(form, |items|) + rest;
    LengthRoundTrip(form, |items|, rest);
    ItemsRoundTrip(kind, key, items, tail);
  }

  lemma {:induction false} ListCalls(v: Value, key: seq<byte>)
    requires ValidValue(v) && v.Collection? && v.kind == List
    ensures ItemCalls(List, key, v.items) == Pushes(key, ListElements(v))
  {
    assert forall k :: 0 <= k < |v.items| ==> ValidItem(List, v.items[k]);
  }

  lemma {:induction false} ValueRoundTrip(key: seq<byte>, v: Value, expiry: nat, tail: seq<byte>)
    requires ValidValue(v)
    ensures Object(TypeByte(v), key, expiry, PrintValue(v) + tail) == Ran(ValueCalls(key, v, expiry), Got((), tail))
  {
    hide ReadString, PrintStr, Meaning, ValidStr, Counted, ValidZip, PrintZip, ZipList, PrintNodes, QuickList,
         PrintLength, ReadCount, Fits, PrintItems, ValidItem;
    match v
    case StringValue(x) => StringRoundTrip(x, tail);
    case Collection(kind, form, items) =>
      CountedRoundTrip(kind, form, items, key, tail);
      if kind == List {
        ListCalls(v, key);
      }
    case ZipValue(node) =>
      StringRoundTrip(node.blob, tail);
      ZipRoundTrip(key, node.zip);
    case QuickValue(form, nodes) =>
      var rest := PrintNodes(nodes) + tail;
      assert PrintValue(v) + tail == PrintLength(form, |nodes|) + rest;
      LengthRoundTrip(form, |nodes|, rest);
      NodesRoundTrip(key, nodes, tail);
  }

  // ---------------------------------------------------------------- records

  datatype Expiry = Never | Millis(n: nat) | Seconds(n: nat)

  datatype Usage = Untracked | Idle(form: LengthForm, n: nat) | Freq(b: byte)

  datatype Record =
    | Select(form: LengthForm, n: nat)
    | Aux(name: Str, x: Str)
    | Resize(f: LengthForm, size: nat, g: LengthForm, expires: nat)
    | Key(expiry: Expiry, usage: Usage, key: Str, value: Value)

  predicate ValidExpiry(e: Expiry) {
    match e
    case Never => true
    case Millis(n) => n < 0x1_0000_0000_0000_0000
    case Seconds(n) => n < 0x1_0000_0000
  }

  ghost predicate ValidRecord(r: Record) {
    match r
    case Select(form, n) => Fits(form, n)
    case Aux(name, x) => ValidStr(name) && ValidStr(x)
    case Resize(f, size, g, expires) => Fits(f, size) && Fits(g, expires)
    case Key(expiry, usage, key, value) =>
      ValidExpiry(expiry) && (usage.Idle? ==> Fits(usage.form, usage.n)) && ValidStr(key) && ValidValue(value)
  }

  function PrintExpiry(e: Expiry): seq<byte> {
    match e
    case Never => []
    case Millis(n) => [252] + ToLittle(n, 8)
    case Seconds(n) => [253] + ToLittle(n, 4)
  }

  function PrintUsage(u: Usage): seq<byte>
    requires u.Idle? ==> Fits(u.form, u.n)
  {
    match u
    case Untracked => []
    case Idle(form, n) => [248] + PrintLength(form, n)
    case Freq(b) => [249, b]
  }

  function PrintRecord(r: Record): seq<byte>
    requires ValidRecord(r)
  {
    match r
    case Select(form, n) => [254] + PrintLength(form, n)
    case Aux(name, x) => [250] + PrintStr(name) + PrintStr(x)
    case Resize(f, size, g, expires) => [251] + PrintLength(f, size) + PrintLength(g, expires)
    case Key(expiry, usage, key, value) =>
      PrintExpiry(expiry) + (PrintUsage(usage) + ([TypeByte(value)] + (PrintStr(key) + PrintValue(value))))
  }

  /** The expiry reported: none is 0, and seconds lose what does not fit 32 bits. */
  function Reported(e: Expiry): nat {
    match e
    case Never => 0
    case Millis(n) => n
    case Seconds(n) => n * 1000 % 0x1_0000_0000
  }

  function RecordCalls(r: Record): seq<Call>
    requires ValidRecord(r)
  {
    match r
    case Select(_, n) => [SelectDB(n)]
    case Aux(name, x) => [AuxField(Meaning(name), Meaning(x))]
    case Resize(_, size, _, expires) => [ResizeDB(size, expires)]
    case Key(expiry, _, key, value) => ValueCalls(Meaning(key), value, Reported(expiry))
  }

  /** Seconds come out as the same moment in milliseconds exactly up to the middle of February 1970. */
  lemma SecondsReportedExactly(n: nat)
    requires n < 0x1_0000_0000
    ensures Reported(Seconds(n)) == n * 1000 <==> n <= 4294967
  {
  }

  /** A key to expire in November 2023 is reported to expire in February 1970. */
  lemma SecondsLost()
    ensures Reported(Seconds(1700000000)) == 3487918080 != 1700000000 * 1000
  {
  }

  lemma {:induction false} ExpiryRoundTrip(e: Expiry, t: seq<byte>)
    requires ValidExpiry(e) && t != [] && t[0] != 252 && t[0] != 253
    ensures
      var s := PrintExpiry(e) + t;
      s != [] && ReadExpire(s[0], s[1..]) == Got((Reported(e), t[0]), t[1..])
  {
    hide ToLittle, LittleEndian;
    var s := PrintExpiry(e) + t;
    Powers();
    match e
    case Never => assert s == t;
    case Millis(n) =>
      assert s[1..] == ToLittle(n, 8) + t;
      TakePrefix(ToLittle(n, 8), t);
      LittleRoundTrip(n, 8);
    case Seconds(n) =>
      assert s[1..] == ToLittle(n, 4) + t;
      TakePrefix(ToLittle(n, 4), t);
      LittleRoundTrip(n, 4);
  }

  lemma {:induction false} UsageRoundTrip(u: Usage, t: seq<byte>)
    requires (u.Idle? ==> Fits(u.form, u.n)) && t != [] && t[0] != 248 && t[0] != 249
    ensures
      var s := PrintUsage(u) + t;
      && s != [] && (t[0] != 252 && t[0] != 253 ==> s[0] != 252 && s[0] != 253)
      && ReadIdleAndFreq(s[0], s[1..]) == Got(t[0], t[1..])
  {
    hide ReadCount, PrintLength, Fits;
    var s := PrintUsage(u) + t;
    match u
    case Untracked => assert s == t;
    case Idle(form, n) =>
      assert s[1..] == PrintLength(form, n) + t;
      LengthRoundTrip(form, n, t);
    case Freq(b) => assert s[1..][1..] == t;
  }

  lemma {:induction false} HeadRoundTrip(e: Expiry, u: Usage, tag: byte, body: seq<byte>, version: int)
    requires ValidExpiry(e) && (u.Idle? ==> Fits(u.form, u.n)) && tag !in {248, 249, 252, 253}
    ensures OneRound(PrintExpiry(e) + (PrintUsage(u) + ([tag] + body)), version) == Body(tag, Reported(e), body,
      version)
  {
    hide PrintExpiry, PrintUsage, ReadExpire, ReadIdleAndFreq, Body, Reported, Fits;
    var v := [tag] + body;
    var t := PrintUsage(u) + v;
    assert v[1..] == body;
    UsageRoundTrip(u, v);
    ExpiryRoundTrip(e, t);
  }

  lemma {:induction false} AuxRoundTrip(name: Str, x: Str, tail: seq<byte>, version: int)
    requires ValidStr(name) && ValidStr(x)
    ensures OneRound([250] + PrintStr(name) + PrintStr(x) + tail,
      version) == Single(AuxField(Meaning(name), Meaning(x)), tail)
  {
    hide PrintStr, ReadCount, ReadString, ReadLength, Object, EndMark, OneRound, Meaning, ValidStr;
    StringRoundTrip(name, PrintStr(x) + tail);
    StringRoundTrip(x, tail);
    Bare(250, PrintStr(name) + (PrintStr(x) + tail), version);
    assert [250] + PrintStr(name) + PrintStr(x) + tail == [250] + (PrintStr(name) + (PrintStr(x) + tail));
  }

  lemma {:induction false} ResizeRoundTrip(f: LengthForm, size: nat, g: LengthForm, expires: nat, tail: seq<byte>,
      version: int)
    requires Fits(f, size) && Fits(g, expires)
    ensures OneRound([251] + PrintLength(f, size) + PrintLength(g, expires) + tail,
      version) == Single(ResizeDB(size, expires), tail)
  {
    hide PrintLength, ReadCount, ReadString, ReadLength, Object, EndMark, OneRound, Fits;
    LengthRoundTrip(f, size, PrintLength(g, expires) + tail);
    LengthRoundTrip(g, expires, tail);
    Bare(251, PrintLength(f, size) + (PrintLength(g, expires) + tail), version);
    assert [251] + PrintLength(f, size) + PrintLength(g,
      expires) + tail == [251] + (PrintLength(f, size) + (PrintLength(g, expires) + tail));
  }

  lemma {:induction false} KeyRoundTrip(r: Record, tail: seq<byte>, version: int)
    requires r.Key? && ValidRecord(r)
    ensures OneRound(PrintRecord(r) + tail, version) == Round(Ran(RecordCalls(r), Got((), tail)), false)
  {
    hide PrintExpiry, PrintUsage, PrintStr, PrintValue, ReadString, Object, OneRound, Fits, Meaning, ValidStr,
         ValidValue, ValueCalls, Reported;
    var k, v := PrintStr(r.key), PrintValue(r.value);
    var body := k + (v + tail);
    StringRoundTrip(r.key, v + tail);
    ValueRoundTrip(Meaning(r.key), r.value, Reported(r.expiry), tail);
    HeadRoundTrip(r.expiry, r.usage, TypeByte(r.value), body, version);
    assert PrintRecord(r) + tail == PrintExpiry(r.expiry) + (PrintUsage(r.usage) + ([TypeByte(r.value)] + body));
  }

  lemma {:induction false} RecordRoundTrip(r: Record, tail: seq<byte>, version: int)
    requires ValidRecord(r)
    ensures OneRound(PrintRecord(r) + tail, version) == Round(Ran(RecordCalls(r), Got((), tail)), false)
  {
    if r.Key? {
      KeyRoundTrip(r, tail, version);
    } else {
      hide PrintLength, PrintStr, ReadCount, ReadString, ReadLength, Object, EndMark, OneRound, Fits, Meaning,
           ValidStr;
      match r
      case Select(form, n) =>
        LengthRoundTrip(form, n, tail);
        Bare(254, PrintLength(form, n) + tail, version);
        assert PrintRecord(r) + tail == [254] + (PrintLength(form, n) + tail);
      case Aux(name, x) => AuxRoundTrip(name, x, tail, version);
      case Resize(f, size, g, expires) => ResizeRoundTrip(f, size, g, expires, tail, version);
      case Key(_, _, _, _) =>
    }
  }

  /** A record without expiry or usage. */
  lemma {:induction false} Bare(tag: byte, body: seq<byte>, version: int)
    requires tag !in {248, 249, 252, 253}
    ensures OneRound([tag] + body, version) == Body(tag, 0, body, version)
  {
    HeadRoundTrip(Never, Untracked, tag, body, version);
    assert PrintExpiry(Never) + (PrintUsage(Untracked) + ([tag] + body)) == [tag] + body;
  }

  // ---------------------------------------------------------------- dumps

  datatype Dump = Dump(version: seq<byte>, records: seq<Record>, checksum: seq<byte>)

  ghost predicate ValidRecords(rs: seq<Record>) { forall k :: 0 <= k < |rs| ==> ValidRecord(rs[k]) }

  /** Four characters of version; the checksum came with version 5. */
  ghost predicate ValidDump(d: Dump) {
    && |d.version| == 4 && Decimal.ParseInt(AsText(d.version)).Some? && ValidRecords(d.records)
    && |d.checksum| == if Decimal.ParseInt(AsText(d.version)).value >= 5 then 8 else 0
  }

  function PrintRecords(rs: seq<Record>): seq<byte>
    requires ValidRecords(rs)
  {
    if rs == [] then [] else PrintRecord(rs[0]) + PrintRecords(rs[1..])
  }

  function AllCalls(rs: seq<Record>): seq<Call>
    requires ValidRecords(rs)
  {
    if rs == [] then [] else RecordCalls(rs[0]) + AllCalls(rs[1..])
  }

  function Magic(): (r: seq<byte>)
    ensures |r| == 5 && AsText(r) == "REDIS"
  {
    ['R' as int, 'E' as int, 'D' as int, 'I' as int, 'S' as int]
  }

  function PrintDump(d: Dump): seq<byte>
    requires ValidDump(d)
  {
    Magic() + d.version + PrintRecords(d.records) + [255] + d.checksum
  }

  lemma {:induction false} RecordsRoundTrip(rs: seq<Record>, rest: seq<byte>, version: int)
    requires ValidRecords(rs)
    ensures Records(PrintRecords(rs) + rest, version) == Prepend(AllCalls(rs), Records(rest, version))
    decreases |rs|
  {
    hide OneRound, PrintRecord, RecordCalls, ValidRecord;
    if rs == [] {
      assert PrintRecords(rs) + rest == rest;
    } else {
      var more := PrintRecords(rs[1..]) + rest;
      assert PrintRecords(rs) + rest == PrintRecord(rs[0]) + more;
      RecordRoundTrip(rs[0], more, version);
      RecordsRoundTrip(rs[1..], rest, version);
    }
  }

  lemma {:induction false} EndRoundTrip(checksum: seq<byte>, tail: seq<byte>, version: int)
    requires |checksum| == if version >= 5 then 8 else 0
    ensures Records([255] + (checksum + tail), version) == Ran([EndOfRDB], Got((), tail))
  {
    Bare(255, checksum + tail, version);
    hide OneRound;
    if version >= 5 {
      TakePrefix(checksum, tail);
    } else {
      assert checksum + tail == tail;
    }
  }

  /**
   Reading a printed dump, whatever comes after it, makes exactly the callbacks of its
   records in order and then reports the end, having consumed the dump and nothing else.
   */
  lemma {:induction false} DumpRoundTrip(d: Dump, tail: seq<byte>)
    requires ValidDump(d)
    ensures Sync(PrintDump(d) + tail) == Ran(AllCalls(d.records) + [EndOfRDB], Got((), tail))
  {
    hide PrintRecords, AllCalls, Records, Magic;
    var head := Magic() + d.version;
    var end := [255] + (d.checksum + tail);
    var rest := PrintRecords(d.records) + end;
    var version := Decimal.ParseInt(AsText(d.version)).value;
    assert PrintDump(d) + tail == head + rest;
    TakePrefix(head, rest);
    assert head[..5] == Magic() && head[5..] == d.version;
    RecordsRoundTrip(d.records, end, version);
    EndRoundTrip(d.checksum, tail, version);
  }
}
