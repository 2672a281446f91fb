/**
 The node lines of a cluster's nodes.conf, as platform/chunk/node.go and platform/chunk/slot.go
 write them, and the parser of such lines in proxy/proto/redis/cluster/slot.go.
 */
module NodesConf {
  import opened Common
  import opened Text
  import opened Words
  import opened Slots
  import Decimal

  // ---------------------------------------------------------------- printing

  function RoleWord(r: Role): string {
    match r case Master => "master" case Slave => "slave"
  }

  function SlotWord(r: Range): string {
    if r.begin == r.end then Decimal.Itoa(r.begin) else Decimal.Itoa(r.begin) + "-" + Decimal.Itoa(r.end)
  }

  /** `%040s`: zeros in front up to forty characters. */
  function Pad40(s: string): (r: string)
    ensures |r| == if |s| >= 40 then |s| else 40
  {
    if |s| >= 40 then s else seq(40 - |s|, _ => '0') + s
  }

  /** The text comes last, and zeros only before it. */
  lemma {:induction false} PaddedWithZeros(s: string)
    ensures |s| <= |Pad40(s)| && Pad40(s)[|Pad40(s)| - |s|..] == s
    ensures forall i :: 0 <= i < |Pad40(s)| - |s| ==> Pad40(s)[i] == '0'
  {
    assert |s| < 40 ==> Pad40(s)[40 - |s|..] == s;
  }

  function Addr(n: Node): string { n.name + ":" + Decimal.Itoa(n.port) }

  /** The eight words before the slots. */
  function HeadWords(n: Node, myself: bool): (r: seq<string>)
    ensures |r| == 8
  {
    [Pad40(n.runId), Addr(n) + "@" + Decimal.Itoa(n.port + 10000),
     (if myself then "myself," else "") + RoleWord(n.role),
     if n.role == Slave then Pad40(n.slaveOf) else n.slaveOf,
     "0", "0", "0", "connected"]
  }

  function SlotWords(slots: seq<Range>): (r: seq<string>)
    ensures |r| == |slots| && forall k :: 0 <= k < |r| ==> r[k] == SlotWord(slots[k])
  {
    seq(|slots|, k requires 0 <= k < |slots| => SlotWord(slots[k]))
  }

  function ConfLine(n: Node, myself: bool): string {
    Spaced(HeadWords(n, myself)) + Join(SlotWords(n.slots)) + "\n"
  }

  lemma {:induction false} Flatten(a: string, b: string, c: string, d: string, t: string)
    ensures a + " " + (b + " " + (c + " " + (d + " " + t))) == a + " " + b + " " + c + " " + d + " " + t
  {
    var y := c + " " + (d + " " + t);
    assert y == c + " " + d + " " + t;
    var x := b + " " + y;
    assert x == b + " " + c + " " + d + " " + t;
  }

  lemma SpacedFirst(ws: seq<string>)
    requires ws != []
    ensures Spaced(ws) == ws[0] + " " + Spaced(ws[1..])
  {
  }

  /** The line as one piece of text. */
  lemma {:induction false} LineFormat(n: Node, myself: bool)
    ensures
      var addr := n.name + ":" + Decimal.Itoa(n.port) + "@" + Decimal.Itoa(n.port + 10000);
      var flags := (if myself then "myself," else "") + RoleWord(n.role);
      var slaveOf := if n.role == Slave then Pad40(n.slaveOf) else n.slaveOf;
      ConfLine(n, myself)
      == Pad40(n.runId) + " " + addr + " " + flags + " " + slaveOf + " " + "0 0 0 connected "
         + Join(SlotWords(n.slots)) + "\n"
  {
    hide Pad40, Join, SlotWords, Decimal.Itoa, Spaced, HeadWords;
    HeadWordsAre(n, myself);
    var w := HeadWords(n, myself);
    SpacedLast(w[4..]);
    SpacedFirst(w);
    SpacedFirst(w[1..]);
    SpacedFirst(w[2..]);
    SpacedFirst(w[3..]);
    assert w[1..][1..] == w[2..] && w[2..][1..] == w[3..] && w[3..][1..] == w[4..];
    assert w[1..][0] == w[1] && w[2..][0] == w[2] && w[3..][0] == w[3];
    Flatten(w[0], w[1], w[2], w[3], Spaced(w[4..]));
  }

  lemma {:induction false} HeadWordsAre(n: Node, myself: bool)
    ensures
      var w := HeadWords(n, myself);
      && w[0] == Pad40(n.runId)
      && w[1] == n.name + ":" + Decimal.Itoa(n.port) + "@" + Decimal.Itoa(n.port + 10000)
      && w[2] == (if myself then "myself," else "") + RoleWord(n.role)
      && w[3] == (if n.role == Slave then Pad40(n.slaveOf) else n.slaveOf)
      && w[4..] == ["0", "0", "0", "connected"]
  {
    hide Pad40, Decimal.Itoa;
  }

  lemma {:induction false} SpacedLast(ws: seq<string>)
    requires ws == ["0", "0", "0", "connected"]
    ensures Spaced(ws) == "0 0 0 connected "
  {
    assert Spaced(ws[3..]) == "connected ";
    assert Spaced(ws[2..]) == "0 connected ";
    assert Spaced(ws[1..]) == "0 0 connected ";
  }

  method IntoConfLine(n: Node, myself: bool) returns (line: string)
    ensures line == ConfLine(n, myself)
  {
    hide HeadWords, Spaced, Join, SlotWord;
    var slots: seq<string> := [];
    for i := 0 to |n.slots|
      invariant |slots| == i && forall k :: 0 <= k < i ==> slots[k] == SlotWord(n.slots[k])
    {
      slots := slots + [SlotWord(n.slots[i])];
    }
    assert slots == SlotWords(n.slots);
    line := Spaced(HeadWords(n, myself)) + Join(slots) + "\n";
  }

  function NodeLines(nodes: seq<Node>, name: string, port: int): string {
    if nodes == [] then ""
    else
      var n := nodes[|nodes| - 1];
      NodeLines(nodes[..|nodes| - 1], name, port) + ConfLine(n, n.name == name && n.port == port)
  }

  const EPOCH_WORDS := ["vars", "currentEpoch", "0", "lastVoteEpoch", "0"]

  const EPOCH := Join(EPOCH_WORDS)

  /** The lines of all nodes in order, then the epoch line. */
  method GenNodesConfFile(name: string, port: int, chunks: seq<Chunk>) returns (text: string)
    ensures text == NodeLines(NodesOf(chunks), name, port) + EPOCH
  {
    text := PrintNodes(chunks, name, port);
    text := text + EPOCH;
  }

  /** The node lines of all chunks. */
  method PrintNodes(chunks: seq<Chunk>, name: string, port: int) returns (text: string)
    ensures text == NodeLines(NodesOf(chunks), name, port)
  {
    text := "";
    for k := 0 to |chunks|
      invariant text == NodeLines(NodesOf(chunks[..k]), name, port)
    {
      assert chunks[..k + 1][..k] == chunks[..k];
      text := AddLines(name, port, chunks[k].nodes, text, NodesOf(chunks[..k]));
    }
    assert chunks[..|chunks|] == chunks;
  }

  /** The inner loop, over the nodes of one chunk. */
  method AddLines(name: string, port: int, nodes: seq<Node>, before: string, ghost printed: seq<Node>)
      returns (text: string)
    requires before == NodeLines(printed, name, port)
    ensures text == NodeLines(printed + nodes, name, port)
  {
    hide ConfLine;
    text := before;
    assert printed + nodes[..0] == printed;
    for i := 0 to |nodes|
      invariant text == NodeLines(printed + nodes[..i], name, port)
    {
      var line := IntoConfLine(nodes[i], nodes[i].name == name && nodes[i].port == port);
      text := text + line;
      assert printed + nodes[..i + 1] == printed + nodes[..i] + [nodes[i]];
    }
    assert nodes[..|nodes|] == nodes;
  }

  // ---------------------------------------------------------------- parsing

  /** The fields of a parsed line that anything is made from. */
  datatype NodeRec = NodeRec(
    id: string, addr: string, role: string, flags: seq<string>, slaveOf: string, linkState: string, slots: seq<int>)

  function Span(begin: int, end: int): (r: seq<int>)
    ensures |r| == if end < begin then 0 else end - begin + 1
    ensures forall i :: 0 <= i < |r| ==> r[i] == begin + i
    ensures forall s :: s in r <==> begin <= s <= end
    decreases end - begin
  {
    if end < begin then [] else [begin] + Span(begin + 1, end)
  }

  function Atoi(s: string): Option<int> { Decimal.ParseInt(s) }

  function TrimBrackets(s: string): string {
    if s != "" && s[0] == '[' then TrimBrackets(s[1..]) else s
  }

  /** `None` for what is skipped: nothing, importing slots, what is not a number or a range. */
  function SlotField(val: string): Option<seq<int>> {
    if val == "" || val == "-" then None
    else if val[0] == '[' && val[|val| - 1] == ']' then
      var i := Find(val, "->-");
      if i < 0 then None
      else
        match Atoi(TrimBrackets(val[..i]))
        case None => None
        case Some(slot) => Some([slot])
    else
      var i := Find(val, "-");
      match Atoi(if i < 0 then val else val[..i])
      case None => None
      case Some(begin) =>
        if i < 0 then Some([begin])
        else
          match Atoi(val[i + 1..])
          case None => None
          case Some(end) => if end < begin then None else Some(Span(begin, end))
  }

  function FieldSlots(words: seq<string>): seq<int> {
    if words == [] then []
    else
      FieldSlots(words[..|words| - 1]) +
      match SlotField(words[|words| - 1]) case None => [] case Some(slots) => slots
  }

  function RoleOf(flags: string): string {
    if Contains(flags, "master") then "master" else if Contains(flags, "slave") then "slave" else ""
  }

  predicate Blank(s: string) { forall i :: 0 <= i < |s| ==> IsSpace(s[i]) }

  /** `None` for a line with fewer than eight words. */
  function LineNode(line: string): Option<NodeRec> {
    var words := Fields(line);
    if Blank(line) || |words| < 8 then None
    else
      Some(NodeRec(words[0], Split(words[1], '@')[0], RoleOf(words[2]), Split(words[2], ','), words[3], words[7],
                   FieldSlots(words[8..])))
  }

  // ---------------------------------------------------------------- the slot table

  predicate InTable(sub: seq<int>) { forall k :: 0 <= k < |sub| ==> 0 <= sub[k] < SLOTS }

  function Filled(table: seq<string>, sub: seq<int>, addr: string): (r: seq<string>)
    ensures |r| == |table| && forall s :: 0 <= s < |r| ==> r[s] == if s in sub then addr else table[s]
  {
    seq(|table|, s requires 0 <= s < |table| => if s in sub then addr else table[s])
  }

  /** What is known after some lines: nodes by address, masters by id, the master of each slot. */
  datatype Scan = Rejected | Crashed | Scanned(nodes: map<string, NodeRec>, ids: map<string, NodeRec>,
    slots: seq<string>)

  function AddNode(sc: Scan, r: NodeRec): Scan
    requires sc.Scanned?
  {
    var nodes := sc.nodes[r.addr := r];
    if r.role != "master" then sc.(nodes := nodes)
    else if !InTable(r.slots) then Crashed
    else Scanned(nodes, sc.ids[r.id := r], Filled(sc.slots, r.slots, r.addr))
  }

  function NoLines(): (sc: Scan)
    ensures sc.Scanned? && |sc.slots| == SLOTS && forall s :: 0 <= s < SLOTS ==> sc.slots[s] == ""
  {
    Scanned(map[], map[], seq(SLOTS, _ => ""))
  }

  /** `Rejected` at a line that does not parse, `Crashed` at a slot outside the table. */
  function ScanLines(lines: seq<string>): (sc: Scan)
    ensures sc.Scanned? ==> |sc.slots| == SLOTS
  {
    if lines == [] then NoLines()
    else
      match ScanLines(lines[..|lines| - 1])
      case Rejected => Rejected
      case Crashed => Crashed
      case Scanned(nodes, ids, slots) =>
        match LineNode(lines[|lines| - 1])
        case None => Rejected
        case Some(r) => AddNode(Scanned(nodes, ids, slots), r)
  }

  function Kept(lines: seq<string>): seq<string> {
    if lines == [] then []
    else Kept(lines[..|lines| - 1]) + if Blank(lines[|lines| - 1]) then [] else [lines[|lines| - 1]]
  }

  ghost predicate Tidy(sc: Scan) {
    sc.Scanned? ==>
      && (forall a :: a in sc.nodes ==> sc.nodes[a].addr == a)
      && (forall id :: id in sc.ids ==> InTable(sc.ids[id].slots))
  }

  lemma {:induction false} ScanTidy(lines: seq<string>)
    ensures Tidy(ScanLines(lines))
  {
    if lines != [] {
      ScanTidy(lines[..|lines| - 1]);
      hide LineNode;
    }
  }

  /** Whether node `a` is a slave of a listed master. */
  predicate Serves(sc: Scan, a: string)
    requires sc.Scanned?
  {
    a in sc.nodes && sc.nodes[a].role == "slave" && sc.nodes[a].slaveOf in sc.ids
  }

  /** How often slave `a` is to be listed for slot `s`. */
  function Listings(sc: Scan, a: string, s: int): nat
    requires sc.Scanned?
  {
    if Serves(sc, a) then multiset(sc.ids[sc.nodes[a].slaveOf].slots)[s] else 0
  }

  datatype Parsed = ParseError | IndexPanic | NodeSlots(nodes: map<string, NodeRec>, slots: seq<string>,
    slaveSlots: seq<seq<string>>)

  /** Slaves are taken from a map, so their order within a slot is open. */
  ghost predicate Agrees(sc: Scan, p: Parsed) {
    match sc
    case Rejected => p == ParseError
    case Crashed => p == IndexPanic
    case Scanned(nodes, _, slots) =>
      && p.NodeSlots? && p.nodes == nodes && p.slots == slots && |p.slaveSlots| == SLOTS
      && forall s, a :: 0 <= s < SLOTS ==> multiset(p.slaveSlots[s])[a] == Listings(sc, a, s)
  }

  /** The first line that stops the scan decides. */
  lemma {:induction false} ScanStuck(lines: seq<string>, k: nat)
    requires k <= |lines| && !ScanLines(lines[..k]).Scanned?
    ensures ScanLines(lines) == ScanLines(lines[..k])
    decreases |lines|
  {
    if k < |lines| {
      var init := lines[..|lines| - 1];
      assert init[..k] == lines[..k];
      ScanStuck(init, k);
    } else {
      assert lines[..k] == lines;
    }
  }
}
