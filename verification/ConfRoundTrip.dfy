/**
 Parsing the node lines that were printed for a plan gives back who owns each slot and who
 follows each owner.
 */
module ConfRoundTrip {
  import opened Common
  import opened Text
  import opened Words
  import opened Slots
  import opened NodesConf
  import Decimal

  // ---------------------------------------------------------------- what a plan must be

  /** Slots of the table; a range may be empty. */
  predicate ValidRange(r: Range) { 0 <= r.begin <= SLOTS && -1 <= r.end < SLOTS }

  /** Names and ids are words, and no host name holds the mark that ends an address. */
  ghost predicate NamedNode(n: Node) {
    && NoSpace(n.name) && '@' !in n.name && NoSpace(n.runId) && NoSpace(n.slaveOf)
    && (n.role == Master ==> n.slaveOf != "")
  }

  ghost predicate ValidNode(n: Node) {
    NamedNode(n) && forall k :: 0 <= k < |n.slots| ==> ValidRange(n.slots[k])
  }

  function RangeSlots(rs: seq<Range>): seq<int> {
    if rs == [] then [] else RangeSlots(rs[..|rs| - 1]) + Span(rs[|rs| - 1].begin, rs[|rs| - 1].end)
  }

  function Flags(role: Role, myself: bool): seq<string> { (if myself then ["myself"] else []) + [RoleWord(role)] }

  /** What a line says about its node. */
  function Rec(n: Node, myself: bool): NodeRec {
    NodeRec(Pad40(n.runId), Addr(n), RoleWord(n.role), Flags(n.role, myself),
            if n.role == Slave then Pad40(n.slaveOf) else n.slaveOf, "connected", RangeSlots(n.slots))
  }

  ghost predicate Says(r: NodeRec, n: Node) { r == Rec(n, false) || r == Rec(n, true) }

  ghost predicate ReadAs(line: string, n: Node) { LineNode(line).Some? && Says(LineNode(line).value, n) }

  // ---------------------------------------------------------------- words

  predicate Plain(s: string) { forall i :: 0 <= i < |s| ==> s[i] == '-' || Decimal.IsDigit(s[i]) }

  lemma {:induction false} ItoaPlain(n: int)
    ensures Plain(Decimal.Itoa(n)) && IsWord(Decimal.Itoa(n)) && '@' !in Decimal.Itoa(n)
    ensures n >= 0 ==> '-' !in Decimal.Itoa(n)
    ensures n >= 0 ==> Decimal.IsDigit(Decimal.Itoa(n)[0])
  {
    hide Decimal.Digits;
    var s := Decimal.Itoa(n);
    assert Plain(s);
    assert forall i :: 0 <= i < |s| ==> !IsSpace(s[i]) && s[i] != '@';
  }

  lemma {:induction false} AtoiItoa(n: int)
    requires -1 <= n <= SLOTS
    ensures Atoi(Decimal.Itoa(n)) == Some(n)
  {
    Decimal.ItoaRoundTrip(n);
  }

  lemma {:induction false} OneSlot(b: string, begin: int)
    requires b != "" && Decimal.IsDigit(b[0]) && '-' !in b && Atoi(b) == Some(begin)
    ensures SlotField(b) == Some([begin])
  {
    hide Atoi, Find;
    FindNone(b, '-');
  }

  lemma {:induction false} SlotPair(b: string, begin: int, e: string, end: int)
    requires b != "" && Decimal.IsDigit(b[0]) && '-' !in b && Atoi(b) == Some(begin) && Atoi(e) == Some(end)
    ensures SlotField(b + "-" + e) == if begin <= end then Some(Span(begin, end)) else None
  {
    hide Atoi, Find;
    var w := b + ['-'] + e;
    FindChar(b, '-', e);
    assert w[0] == b[0] && w[..|b|] == b && w[|b| + 1..] == e;
  }

  lemma {:induction false} SlotRoundTrip(r: Range)
    requires ValidRange(r)
    ensures SlotField(SlotWord(r)) == if r.begin <= r.end then Some(Span(r.begin, r.end)) else None
  {
    ItoaPlain(r.begin);
    AtoiItoa(r.begin);
    hide Decimal.Itoa, SlotField, Atoi;
    if r.begin == r.end {
      OneSlot(Decimal.Itoa(r.begin), r.begin);
      assert Span(r.begin, r.end) == [r.begin];
    } else {
      AtoiItoa(r.end);
      SlotPair(Decimal.Itoa(r.begin), r.begin, Decimal.Itoa(r.end), r.end);
    }
  }

  // ---------------------------------------------------------------- slots on the move

  lemma {:induction false} FindArrow(a: string, rest: string)
    requires '-' !in a
    ensures Find(a + "->-" + rest, "->-") == |a|
  {
    var s := a + "->-" + rest;
    assert s[|a|..] == "->-" + rest;
    assert OccursAt(s, "->-", |a|);
    forall j | 0 <= j < |a|
      ensures !OccursAt(s, "->-", j)
    {
      assert s[j..][0] == a[j] && "->-"[0] == '-';
    }
  }

  lemma {:induction false} NoArrow(s: string)
    requires '>' !in s
    ensures Find(s, "->-") == -1
  {
    forall j | 0 <= j <= |s|
      ensures !OccursAt(s, "->-", j)
    {
      if j + 3 <= |s| {
        assert s[j..][1] == s[j + 1] && "->-"[1] == '>';
      }
    }
  }

  /** A slot that is moving away, `[slot->-id]`, is still this master's; one that is arriving is not yet. */
  lemma {:induction false} MovingSlot(slot: nat, id: string)
    requires slot <= Decimal.INT64_MAX
    ensures SlotField("[" + Decimal.Itoa(slot) + "->-" + id + "]") == Some([slot])
    ensures '>' !in id ==> SlotField("[" + Decimal.Itoa(slot) + "-<-" + id + "]") == None
  {
    Decimal.ItoaRoundTrip(slot);
    Decimal.ItoaDigits(slot);
    hide Decimal.Itoa, Find, Decimal.ParseInt;
    var b := Decimal.Itoa(slot);
    assert '-' !in b && '>' !in b && b[0] != '[';
    var away, here := "[" + b + "->-" + id + "]", "[" + b + "-<-" + id + "]";
    FindArrow("[" + b, id + "]");
    assert away == ("[" + b) + "->-" + (id + "]") && away[..|b| + 1] == "[" + b;
    assert ("[" + b)[1..] == b && TrimBrackets("[" + b) == TrimBrackets(b) == b;
    if '>' !in id {
      NoArrow(here);
    }
  }

  lemma {:induction false} SlotsRoundTrip(rs: seq<Range>)
    requires forall k :: 0 <= k < |rs| ==> ValidRange(rs[k])
    ensures FieldSlots(SlotWords(rs)) == RangeSlots(rs)
  {
    hide SlotField, SlotWord, ValidRange;
    if rs != [] {
      var k := |rs| - 1;
      SlotsRoundTrip(rs[..k]);
      assert SlotWords(rs)[..k] == SlotWords(rs[..k]);
      SlotRoundTrip(rs[k]);
    }
  }

  lemma {:induction false} SlotWordIsWord(r: Range)
    ensures IsWord(SlotWord(r))
  {
    ItoaPlain(r.begin);
    ItoaPlain(r.end);
    hide Decimal.Itoa;
  }

  lemma {:induction false} SlaveIsNoMaster(w: string)
    requires w == "slave" || w == "myself,slave"
    ensures forall j :: !OccursAt(w, "master", j)
  {
    forall j | 0 <= j <= |w|
      ensures !OccursAt(w, "master", j)
    {
      if j + 6 <= |w| {
        assert w[j..][0] == w[j] && w[j..][1] == w[j + 1];
        assert "master"[0] == 'm' && "master"[1] == 'a';
      }
    }
  }

  lemma {:induction false} RoleEnds(before: string, role: Role)
    ensures OccursAt(before + RoleWord(role), RoleWord(role), |before|)
  {
    assert (before + RoleWord(role))[|before|..] == RoleWord(role);
  }

  lemma {:induction false} RoleRead(role: Role, myself: bool)
    ensures
      var w := (if myself then "myself," else "") + RoleWord(role);
      IsWord(w) && RoleOf(w) == RoleWord(role) && Split(w, ',') == Flags(role, myself)
  {
    hide Find, OccursAt, Split, Flags, IsWord;
    var before := if myself then "myself," else "";
    FlagsRead(role, myself);
    FlagsAreWord(role, myself);
    RoleEnds(before, role);
    if role == Slave {
      SlaveIsNoMaster(before + "slave");
    }
  }

  lemma {:induction false} FlagsAreWord(role: Role, myself: bool)
    ensures IsWord((if myself then "myself," else "") + RoleWord(role))
  {
    assert NoSpace("myself,") && NoSpace(RoleWord(role));
  }

  lemma {:induction false} FlagsRead(role: Role, myself: bool)
    ensures Split((if myself then "myself," else "") + RoleWord(role), ',') == Flags(role, myself)
  {
    hide Split;
    var w := RoleWord(role);
    SplitWhole(w, ',');
    if myself {
      SplitCut("myself", ',', w);
      assert "myself," + w == "myself" + [','] + w;
    } else {
      assert "" + w == w;
    }
  }

  lemma {:induction false} AddrRead(n: Node)
    requires ValidNode(n)
    ensures
      var w := Addr(n) + "@" + Decimal.Itoa(n.port + 10000);
      IsWord(w) && Split(w, '@')[0] == Addr(n)
  {
    ItoaPlain(n.port);
    ItoaPlain(n.port + 10000);
    hide Decimal.Itoa;
    SplitCut(Addr(n), '@', Decimal.Itoa(n.port + 10000));
  }

  lemma PadIsWord(w: string)
    requires NoSpace(w)
    ensures IsWord(Pad40(w))
  {
  }

  lemma {:induction false} HeadIsWords(n: Node, myself: bool)
    requires ValidNode(n)
    ensures forall k :: 0 <= k < 8 ==> IsWord(HeadWords(n, myself)[k])
  {
    hide Decimal.Itoa, Addr, RoleOf, Split, Pad40;
    AddrRead(n);
    RoleRead(n.role, myself);
    PadIsWord(n.runId);
    PadIsWord(n.slaveOf);
  }

  /** A line without its end. */
  function LineText(n: Node, myself: bool): string {
    Spaced(HeadWords(n, myself)) + Join(SlotWords(n.slots))
  }

  lemma {:induction false} LineFields(n: Node, myself: bool)
    requires ValidNode(n)
    ensures Fields(LineText(n, myself)) == HeadWords(n, myself) + SlotWords(n.slots) && !Blank(LineText(n, myself))
  {
    var line, head, slots := LineText(n, myself), HeadWords(n, myself), SlotWords(n.slots);
    hide HeadWords, SlotWord;
    HeadIsWords(n, myself);
    forall k | 0 <= k < |slots|
      ensures IsWord(slots[k])
    {
      SlotWordIsWord(n.slots[k]);
    }
    FieldsSpaced(head, Join(slots));
    FieldsJoin(slots);
    hide Fields, Join;
    assert IsWord(head[0]);
    assert line[0] == head[0][0];
  }

  lemma {:induction false} LineRoundTrip(n: Node, myself: bool)
    requires ValidNode(n)
    ensures LineNode(LineText(n, myself)) == Some(Rec(n, myself)) && !Blank(LineText(n, myself))
  {
    hide Flags, Fields, Join, RoleOf, Decimal.Itoa, FieldSlots, Split, SlotWords, Spaced, LineText, Addr, Pad40,
         Blank, IsWord, RangeSlots;
    LineFields(n, myself);
    AddrRead(n);
    RoleRead(n.role, myself);
    SlotsRoundTrip(n.slots);
    var head, slots := HeadWords(n, myself), SlotWords(n.slots);
    assert (head + slots)[8..] == slots;
  }

  // ---------------------------------------------------------------- lines

  function Unlines(ls: seq<string>): string {
    if ls == [] then "" else ls[0] + ['\n'] + Unlines(ls[1..])
  }

  lemma {:induction false} UnlinesSnoc(ls: seq<string>, l: string)
    ensures Unlines(ls + [l]) == Unlines(ls) + l + ['\n']
    decreases |ls|
  {
    if ls == [] {
      assert (ls + [l])[1..] == [];
    } else {
      assert (ls + [l])[1..] == ls[1..] + [l];
      UnlinesSnoc(ls[1..], l);
    }
  }

  lemma {:induction false} SplitLines(ls: seq<string>, rest: string)
    requires forall k :: 0 <= k < |ls| ==> '\n' !in ls[k]
    ensures Split(Unlines(ls) + rest, '\n') == ls + Split(rest, '\n')
    decreases |ls|
  {
    hide Split;
    if ls == [] {
      assert Unlines(ls) + rest == rest;
    } else {
      var more := Unlines(ls[1..]) + rest;
      assert Unlines(ls) + rest == ls[0] + ['\n'] + more;
      SplitCut(ls[0], '\n', more);
      SplitLines(ls[1..], rest);
      assert ls == [ls[0]] + ls[1..];
    }
  }

  lemma {:induction false} OneLine(ws: seq<string>)
    requires forall k :: 0 <= k < |ws| ==> IsWord(ws[k])
    ensures '\n' !in Spaced(ws) && '\n' !in Join(ws)
    decreases |ws|
  {
    if ws != [] {
      assert IsWord(ws[0]);
      OneLine(ws[1..]);
    }
  }

  lemma {:induction false} LineTextIsLine(n: Node, myself: bool)
    requires ValidNode(n)
    ensures '\n' !in LineText(n, myself)
  {
    var slots := SlotWords(n.slots);
    HeadIsWords(n, myself);
    forall k | 0 <= k < |slots|
      ensures IsWord(slots[k])
    {
      SlotWordIsWord(n.slots[k]);
    }
    OneLine(HeadWords(n, myself));
    OneLine(slots);
    hide HeadWords, SlotWords, Spaced, Join;
  }

  function Texts(nodes: seq<Node>, name: string, port: int): (r: seq<string>)
    ensures |r| == |nodes|
  {
    seq(|nodes|, i requires 0 <= i < |nodes| => LineText(nodes[i], nodes[i].name == name && nodes[i].port == port))
  }

  lemma {:induction false} NodeLinesAreTexts(nodes: seq<Node>, name: string, port: int)
    ensures NodeLines(nodes, name, port) == Unlines(Texts(nodes, name, port))
  {
    hide LineText, ConfLine;
    if nodes == [] {
      assert Texts(nodes, name, port) == [];
    } else {
      hide Unlines;
      var k := |nodes| - 1;
      var me := nodes[k].name == name && nodes[k].port == port;
      var init, last := Texts(nodes[..k], name, port), LineText(nodes[k], me);
      NodeLinesAreTexts(nodes[..k], name, port);
      assert Texts(nodes, name, port) == init + [last];
      UnlinesSnoc(init, last);
      LineEnds(nodes[k], me);
      assert Unlines(init) + last + ['\n'] == Unlines(init) + (last + ['\n']);
    }
  }

  lemma LineEnds(n: Node, myself: bool)
    ensures ConfLine(n, myself) == LineText(n, myself) + ['\n']
  {
  }

  lemma {:induction false} KeptAll(ls: seq<string>)
    requires forall k :: 0 <= k < |ls| ==> !Blank(ls[k])
    ensures Kept(ls) == ls
  {
    hide Blank;
    if ls != [] {
      KeptAll(ls[..|ls| - 1]);
    }
  }

  ghost predicate ValidNodes(nodes: seq<Node>) { forall i :: 0 <= i < |nodes| ==> ValidNode(nodes[i]) }

  /** The lines the parser keeps are the printed ones, and then those of `rest`. */
  lemma {:induction false} LinesRead(nodes: seq<Node>, name: string, port: int, rest: string)
    requires ValidNodes(nodes) && '\n' !in rest
    ensures
      var texts := Texts(nodes, name, port);
      && (forall i :: 0 <= i < |texts| ==> ReadAs(texts[i], nodes[i]))
      && Kept(Split(NodeLines(nodes, name, port) + rest, '\n')) == texts + if Blank(rest) then [] else [rest]
  {
    var texts := Texts(nodes, name, port);
    forall i | 0 <= i < |texts|
      ensures ReadAs(texts[i], nodes[i]) && !Blank(texts[i]) && '\n' !in texts[i]
    {
      var me := nodes[i].name == name && nodes[i].port == port;
      LineRoundTrip(nodes[i], me);
      LineTextIsLine(nodes[i], me);
      hide LineText, LineNode, Blank, Rec, ValidNode;
      assert Says(Rec(nodes[i], me), nodes[i]);
      assert texts[i] == LineText(nodes[i], me);
    }
    hide LineText, LineNode, Blank, ReadAs, ValidNode, Split, Texts;
    NodeLinesAreTexts(nodes, name, port);
    SplitLines(texts, rest);
    SplitWhole(rest, '\n');
    KeptAll(texts);
    assert (texts + [rest])[..|texts|] == texts;
  }

  // ---------------------------------------------------------------- the table

  /** Addresses are distinct, and so are the padded ids of masters. */
  ghost predicate Distinguished(nodes: seq<Node>) {
    && (forall i, j :: 0 <= i < j < |nodes| ==> Addr(nodes[i]) != Addr(nodes[j]))
    && (forall i, j :: 0 <= i < j < |nodes| && nodes[i].role == nodes[j].role == Master ==>
      Pad40(nodes[i].runId) != Pad40(nodes[j].runId))
  }

  ghost predicate Holder(nodes: seq<Node>, i: int, s: int) {
    0 <= i < |nodes| && nodes[i].role == Master && s in RangeSlots(nodes[i].slots)
  }

  /** And no slot is with two masters. */
  ghost predicate ValidPlan(nodes: seq<Node>) {
    && ValidNodes(nodes) && Distinguished(nodes)
    && forall i, j, s :: Holder(nodes, i, s) && Holder(nodes, j, s) ==> i == j
  }

  ghost predicate MasterWithId(n: Node, id: string) { n.role == Master && Pad40(n.runId) == id }

  ghost predicate KnowsNodes(nodes: seq<Node>, known: map<string, NodeRec>) {
    && (forall a :: a in known ==> exists i :: 0 <= i < |nodes| && Addr(nodes[i]) == a)
    && (forall i :: 0 <= i < |nodes| ==> Addr(nodes[i]) in known && Says(known[Addr(nodes[i])], nodes[i]))
  }

  ghost predicate KnowsIds(nodes: seq<Node>, ids: map<string, NodeRec>) {
    && (forall id :: id in ids ==> exists i :: 0 <= i < |nodes| && MasterWithId(nodes[i], id))
    && (forall i, id :: 0 <= i < |nodes| && MasterWithId(nodes[i], id) ==> id in ids && Says(ids[id], nodes[i]))
  }

  ghost predicate KnowsSlots(nodes: seq<Node>, slots: seq<string>) {
    && |slots| == SLOTS
    && (forall i, s :: Holder(nodes, i, s) ==> 0 <= s < SLOTS && slots[s] == Addr(nodes[i]))
    && (forall s :: 0 <= s < SLOTS && slots[s] != "" ==> exists i :: Holder(nodes, i, s))
  }

  /** What the scan knows after the lines of `nodes`. */
  ghost predicate Knows(nodes: seq<Node>, sc: Scan) {
    sc.Scanned? && KnowsNodes(nodes, sc.nodes) && KnowsIds(nodes, sc.ids) && KnowsSlots(nodes, sc.slots)
  }

  lemma {:induction false} NodesStep(nodes: seq<Node>, n: Node, r: NodeRec, known: map<string, NodeRec>)
    requires KnowsNodes(nodes, known) && Says(r, n) && forall i :: 0 <= i < |nodes| ==> Addr(nodes[i]) != Addr(n)
    ensures KnowsNodes(nodes + [n], known[Addr(n) := r])
  {
    hide Addr, Says;
    var more := nodes + [n];
    var now := known[Addr(n) := r];
    forall a | a in now
      ensures exists i :: 0 <= i < |more| && Addr(more[i]) == a
    {
      if a == Addr(n) {
        assert Addr(more[|nodes|]) == a;
      } else {
        var i :| 0 <= i < |nodes| && Addr(nodes[i]) == a;
        assert Addr(more[i]) == a;
      }
    }
  }

  lemma {:induction false} IdsStep(nodes: seq<Node>, n: Node, r: NodeRec, ids: map<string, NodeRec>)
    requires KnowsIds(nodes, ids) && Says(r, n)
    requires n.role == Master ==> forall i :: 0 <= i < |nodes| ==> !MasterWithId(nodes[i], Pad40(n.runId))
    ensures KnowsIds(nodes + [n], if n.role == Master then ids[Pad40(n.runId) := r] else ids)
  {
    hide Pad40, Says;
    var more := nodes + [n];
    var now := if n.role == Master then ids[Pad40(n.runId) := r] else ids;
    forall id | id in now
      ensures exists i :: 0 <= i < |more| && MasterWithId(more[i], id)
    {
      if n.role == Master && id == Pad40(n.runId) {
        assert MasterWithId(more[|nodes|], id);
      } else {
        var i :| 0 <= i < |nodes| && MasterWithId(nodes[i], id);
        assert MasterWithId(more[i], id);
      }
    }
  }

  lemma {:induction false} SlotsStep(nodes: seq<Node>, n: Node, slots: seq<string>)
    requires KnowsSlots(nodes, slots) && (n.role == Master ==> InTable(RangeSlots(n.slots)))
    requires n.role == Master ==> forall i, s :: Holder(nodes, i, s) ==> s !in RangeSlots(n.slots)
    ensures KnowsSlots(nodes + [n], if n.role == Master then Filled(slots, RangeSlots(n.slots), Addr(n)) else slots)
  {
    hide RangeSlots, Addr;
    var more := nodes + [n];
    var now := if n.role == Master then Filled(slots, RangeSlots(n.slots), Addr(n)) else slots;
    forall i, s | Holder(more, i, s)
      ensures 0 <= s < SLOTS && now[s] == Addr(more[i])
    {
      if i < |nodes| {
        assert Holder(nodes, i, s);
      }
    }
    forall s | 0 <= s < SLOTS && now[s] != ""
      ensures exists i :: Holder(more, i, s)
    {
      if n.role == Master && s in RangeSlots(n.slots) {
        assert Holder(more, |nodes|, s);
      } else {
        var i :| Holder(nodes, i, s);
        assert Holder(more, i, s);
      }
    }
  }

  lemma {:induction false} RangesInTable(rs: seq<Range>)
    requires forall k :: 0 <= k < |rs| ==> ValidRange(rs[k])
    ensures InTable(RangeSlots(rs))
  {
    if rs != [] {
      var k := |rs| - 1;
      RangesInTable(rs[..k]);
      var last := Span(rs[k].begin, rs[k].end);
      assert forall j :: 0 <= j < |last| ==> last[j] in last;
    }
  }

  /** A plan without its last node, and how that node stands apart. */
  lemma {:induction false} PlanStep(nodes: seq<Node>, n: Node)
    requires ValidPlan(nodes + [n])
    ensures ValidPlan(nodes) && ValidNode(n)
    ensures forall i :: 0 <= i < |nodes| ==> Addr(nodes[i]) != Addr(n)
    ensures n.role == Master ==> forall i :: 0 <= i < |nodes| ==> !MasterWithId(nodes[i], Pad40(n.runId))
    ensures n.role == Master ==> forall i, s :: Holder(nodes, i, s) ==> s !in RangeSlots(n.slots)
  {
    hide Addr, Pad40, RangeSlots, ValidNode;
    var more := nodes + [n];
    assert more[|nodes|] == n && forall i :: 0 <= i < |nodes| ==> more[i] == nodes[i];
    assert forall i, s :: Holder(nodes, i, s) ==> Holder(more, i, s);
    assert forall s :: n.role == Master && s in RangeSlots(n.slots) ==> Holder(more, |nodes|, s);
  }

  lemma {:induction false} NodeStep(nodes: seq<Node>, n: Node, r: NodeRec, sc: Scan)
    requires ValidPlan(nodes + [n]) && Knows(nodes, sc) && Says(r, n)
    ensures Knows(nodes + [n], AddNode(sc, r))
  {
    PlanStep(nodes, n);
    RangesInTable(n.slots);
    NodesStep(nodes, n, r, sc.nodes);
    IdsStep(nodes, n, r, sc.ids);
    SlotsStep(nodes, n, sc.slots);
    hide KnowsNodes, KnowsIds, KnowsSlots, ValidPlan, Filled, Addr, Pad40, RangeSlots, InTable, ValidNode;
  }

  lemma KnowsNothing()
    ensures Knows([], NoLines())
  {
  }

  lemma {:induction false} ScanStep(lines: seq<string>, r: NodeRec)
    requires lines != [] && ScanLines(lines[..|lines| - 1]).Scanned? && LineNode(lines[|lines| - 1]) == Some(r)
    ensures ScanLines(lines) == AddNode(ScanLines(lines[..|lines| - 1]), r)
  {
    hide LineNode, AddNode;
  }

  lemma {:induction false} ScanKnows(nodes: seq<Node>, texts: seq<string>)
    requires ValidPlan(nodes) && |texts| == |nodes|
    requires forall i :: 0 <= i < |texts| ==> ReadAs(texts[i], nodes[i])
    ensures Knows(nodes, ScanLines(texts))
  {
    hide ValidPlan, LineNode, AddNode, Says, ValidNode, Addr, KnowsNodes, KnowsIds, KnowsSlots;
    if nodes == [] {
      KnowsNothing();
      assert nodes == [];
    } else {
      var k := |nodes| - 1;
      var init, n := nodes[..k], nodes[k];
      assert nodes == init + [n];
      PlanStep(init, n);
      ScanKnows(init, texts[..k]);
      assert ReadAs(texts[k], n);
      ScanStep(texts, LineNode(texts[k]).value);
      NodeStep(init, n, LineNode(texts[k]).value, ScanLines(texts[..k]));
    }
  }

  /** Node `j` is printed as a slave of master `i`. */
  ghost predicate Follows(nodes: seq<Node>, j: int, i: int)
    requires 0 <= i < |nodes| && 0 <= j < |nodes|
  {
    nodes[j].role == Slave && Pad40(nodes[j].slaveOf) == Pad40(nodes[i].runId)
  }

  /** It is the only one. */
  ghost predicate OnlyFollower(nodes: seq<Node>, j: int, i: int)
    requires 0 <= i < |nodes|
  {
    0 <= j < |nodes| && Follows(nodes, j, i) && forall k :: 0 <= k < |nodes| && Follows(nodes, k, i) ==> k == j
  }

  /** What the scan has of a master and of a slave. */
  lemma {:induction false} MasterKnown(nodes: seq<Node>, sc: Scan, i: int)
    requires Knows(nodes, sc) && 0 <= i < |nodes| && nodes[i].role == Master
    ensures Pad40(nodes[i].runId) in sc.ids && sc.ids[Pad40(nodes[i].runId)].slots == RangeSlots(nodes[i].slots)
  {
    hide Addr, Pad40, RangeSlots, KnowsNodes, KnowsSlots;
    assert MasterWithId(nodes[i], Pad40(nodes[i].runId));
  }

  lemma {:induction false} NodeKnown(nodes: seq<Node>, sc: Scan, j: int)
    requires Knows(nodes, sc) && 0 <= j < |nodes|
    ensures Addr(nodes[j]) in sc.nodes
    ensures
      var r := sc.nodes[Addr(nodes[j])];
      r.role == RoleWord(nodes[j].role) && (nodes[j].role == Slave ==> r.slaveOf == Pad40(nodes[j].slaveOf))
  {
    hide Addr, Pad40, RangeSlots, KnowsIds, KnowsSlots;
    assert Says(sc.nodes[Addr(nodes[j])], nodes[j]);
  }

  lemma {:induction false} SlaveListings(nodes: seq<Node>, sc: Scan, i: int, j: int, s: int)
    requires ValidPlan(nodes) && Knows(nodes, sc) && Holder(nodes, i, s) && 0 <= j < |nodes|
    ensures Listings(sc, Addr(nodes[j]), s) ==
      if Follows(nodes, j, i) then multiset(RangeSlots(nodes[i].slots))[s] else 0
  {
    MasterKnown(nodes, sc, i);
    NodeKnown(nodes, sc, j);
    var id := Pad40(nodes[j].slaveOf);
    if nodes[j].role == Slave && id in sc.ids && !Follows(nodes, j, i) {
      var m :| 0 <= m < |nodes| && MasterWithId(nodes[m], id);
      MasterKnown(nodes, sc, m);
      OtherHolder(nodes, i, m, s);
    }
    hide Addr, Pad40, RangeSlots, ValidPlan, Knows;
  }

  lemma {:induction false} OtherHolder(nodes: seq<Node>, i: int, m: int, s: int)
    requires ValidPlan(nodes) && Holder(nodes, i, s) && 0 <= m < |nodes| && m != i && nodes[m].role == Master
    ensures s !in RangeSlots(nodes[m].slots)
  {
    hide RangeSlots, ValidNodes, Distinguished;
    assert !Holder(nodes, m, s);
  }

  /** The slaves listed for a slot are those printed as following its master. */
  ghost predicate SlavesOf(nodes: seq<Node>, slaveSlots: seq<seq<string>>) {
    && |slaveSlots| == SLOTS
    && (forall i, j, s :: Holder(nodes, i, s) && 0 <= s < SLOTS && 0 <= j < |nodes| ==>
          multiset(slaveSlots[s])[Addr(nodes[j])] ==
            if Follows(nodes, j, i) then multiset(RangeSlots(nodes[i].slots))[s] else 0)
    && (forall s, a :: 0 <= s < SLOTS && a in slaveSlots[s] ==> exists j :: 0 <= j < |nodes| && Addr(nodes[j]) == a)
  }

  lemma {:induction false} ListedAsScanned(sc: Scan, p: Parsed, s: int, a: string)
    requires sc.Scanned? && Agrees(sc, p) && 0 <= s < SLOTS
    ensures p.NodeSlots? && |p.slaveSlots| == SLOTS && multiset(p.slaveSlots[s])[a] == Listings(sc, a, s)
  {
    hide Listings;
  }

  lemma {:induction false} SlavesRecovered(nodes: seq<Node>, sc: Scan, p: Parsed)
    requires ValidPlan(nodes) && Knows(nodes, sc) && Agrees(sc, p)
    ensures p.NodeSlots? && SlavesOf(nodes, p.slaveSlots)
  {
    ListedAsScanned(sc, p, 0, "");
    hide Addr, RangeSlots, ValidPlan, KnowsNodes, KnowsIds, KnowsSlots, Holder, Follows, Agrees, Listings;
    forall i, j, s | Holder(nodes, i, s) && 0 <= s < SLOTS && 0 <= j < |nodes|
      ensures multiset(p.slaveSlots[s])[Addr(nodes[j])] ==
        if Follows(nodes, j, i) then multiset(RangeSlots(nodes[i].slots))[s] else 0
    {
      ListedAsScanned(sc, p, s, Addr(nodes[j]));
      SlaveListings(nodes, sc, i, j, s);
    }
    forall s, a | 0 <= s < SLOTS && a in p.slaveSlots[s]
      ensures exists j :: 0 <= j < |nodes| && Addr(nodes[j]) == a
    {
      ListedAsScanned(sc, p, s, a);
      ListedIsNode(nodes, sc, s, a);
    }
  }

  lemma {:induction false} ListedIsNode(nodes: seq<Node>, sc: Scan, s: int, a: string)
    requires Knows(nodes, sc) && Listings(sc, a, s) > 0
    ensures exists j :: 0 <= j < |nodes| && Addr(nodes[j]) == a
  {
    hide Addr, KnowsIds, KnowsSlots;
    assert a in sc.nodes;
  }

  /**
   Whatever the parser makes of the printed lines: each slot is with the master printed with
   it and with no other, unlisted slots are with nobody, and the slaves listed for a slot are
   exactly the addresses of those printed as following that master.
   */
  lemma {:induction false} PlanRecovered(nodes: seq<Node>, name: string, port: int, p: Parsed)
    requires ValidPlan(nodes) && Agrees(ScanLines(Kept(Split(NodeLines(nodes, name, port), '\n'))), p)
    ensures Recovers(nodes, p)
  {
    hide KnowsNodes, KnowsIds, KnowsSlots, SlavesOf, Split, Kept, ScanLines, NodeLines, Texts, LineNode, Rec,
         ReadAs, ValidNodes, Listings;
    var texts := Texts(nodes, name, port);
    LinesRead(nodes, name, port, "");
    assert NodeLines(nodes, name, port) + "" == NodeLines(nodes, name, port) && texts + [] == texts;
    ScanKnows(nodes, texts);
    SlavesRecovered(nodes, ScanLines(texts), p);
  }

  /** A master with one slave: that slave is listed for each of its slots, alone. */
  lemma {:induction false} OneSlave(nodes: seq<Node>, slaveSlots: seq<seq<string>>, i: int, j: int, s: int)
    requires SlavesOf(nodes, slaveSlots) && Holder(nodes, i, s) && 0 <= s < SLOTS && 0 <= j < |nodes|
    requires multiset(RangeSlots(nodes[i].slots))[s] == 1
    requires Follows(nodes, j, i) && forall k :: 0 <= k < |nodes| && Follows(nodes, k, i) ==>
      Addr(nodes[k]) == Addr(nodes[j])
    ensures slaveSlots[s] == [Addr(nodes[j])]
  {
    hide Addr, RangeSlots, Holder, Follows;
    var list, only := slaveSlots[s], Addr(nodes[j]);
    assert multiset(list)[only] == 1;
    forall a | a in list
      ensures a == only
    {
      var k :| 0 <= k < |nodes| && Addr(nodes[k]) == a;
      assert multiset(list)[Addr(nodes[k])] > 0;
    }
    assert forall k :: 0 <= k < |list| ==> list[k] in list;
    AllTheSame(list, only);
  }

  lemma {:induction false} AllTheSame(list: seq<string>, only: string)
    requires forall k :: 0 <= k < |list| ==> list[k] == only
    ensures multiset(list)[only] == |list|
  {
    if list != [] {
      var k := |list| - 1;
      AllTheSame(list[..k], only);
      assert list == list[..k] + [list[k]];
    }
  }

  /** `p` is the table the plan was printed from. */
  ghost predicate Recovers(nodes: seq<Node>, p: Parsed) {
    p.NodeSlots? && KnowsNodes(nodes, p.nodes) && KnowsSlots(nodes, p.slots) && SlavesOf(nodes, p.slaveSlots)
  }

  lemma {:induction false} EpochRejected()
    ensures LineNode(EPOCH) == None && !Blank(EPOCH) && '\n' !in EPOCH
  {
    FieldsJoin(EPOCH_WORDS);
    OneLine(EPOCH_WORDS);
    assert EPOCH[0] == 'v';
    hide Fields, Join;
  }

  lemma {:induction false} ScanStops(lines: seq<string>, bad: string)
    requires ScanLines(lines).Scanned? && LineNode(bad) == None
    ensures ScanLines(lines + [bad]) == Rejected
  {
    hide LineNode, AddNode;
    assert (lines + [bad])[..|lines|] == lines;
  }

  /** With the epoch line at its end the whole file does not parse: that line is too short. */
  lemma {:induction false} WholeFileRejected(nodes: seq<Node>, name: string, port: int)
    requires ValidPlan(nodes)
    ensures ScanLines(Kept(Split(NodeLines(nodes, name, port) + EPOCH, '\n'))) == Rejected
  {
    hide Split, Kept, NodeLines, Texts, LineNode, Rec, ReadAs, KnowsNodes, KnowsIds, KnowsSlots, ValidNodes,
         Blank, AddNode, ScanLines, Join, Distinguished;
    var texts := Texts(nodes, name, port);
    EpochRejected();
    LinesRead(nodes, name, port, EPOCH);
    ScanKnows(nodes, texts);
    ScanStops(texts, EPOCH);
  }

  // ---------------------------------------------------------------- from the division to the proxy

  lemma {:induction false} OneRangeSlots(r: Range, s: int)
    ensures s in RangeSlots([r]) <==> InRange(r, s)
    ensures InRange(r, s) ==> multiset(RangeSlots([r]))[s] == 1
  {
    assert RangeSlots([r]) == RangeSlots([]) + Span(r.begin, r.end) by {
      assert [r][..0] == [];
    }
    assert RangeSlots([r]) == Span(r.begin, r.end);
    if InRange(r, s) {
      SpanOnce(r.begin, r.end, s);
    }
  }

  lemma {:induction false} SpanOnce(begin: int, end: int, s: int)
    requires begin <= s <= end
    ensures multiset(Span(begin, end))[s] == 1
    decreases end - begin
  {
    var more := Span(begin + 1, end);
    assert Span(begin, end) == [begin] + more;
    if s > begin {
      SpanOnce(begin + 1, end, s);
    } else {
      assert s !in more;
      assert multiset(more)[s] == 0;
    }
  }

  lemma {:induction false} DealtHolder(nodes: seq<Node>, number: int, i: int, s: int)
    requires number > 0 && Dealt(nodes, number) && 0 <= i < |nodes|
    ensures Holder(nodes, i, s) <==> nodes[i].role == Master && InRange(RangeAt(number, Rank(nodes, i)), s)
    ensures Holder(nodes, i, s) ==> multiset(RangeSlots(nodes[i].slots))[s] == 1
  {
    if nodes[i].role == Master {
      OneRangeSlots(RangeAt(number, Rank(nodes, i)), s);
    }
  }

  /** Masters of a dealt plan share no slot. */
  lemma {:induction false} DealtApart(nodes: seq<Node>, number: int, i: int, j: int, s: int)
    requires number > 0 && Dealt(nodes, number) && Holder(nodes, i, s) && Holder(nodes, j, s)
    ensures i == j
  {
    hide RangeAt, InRange, RangeSlots;
    DealtHolder(nodes, number, i, s);
    DealtHolder(nodes, number, j, s);
    OneRange(number, s, Rank(nodes, i), Rank(nodes, j));
    if i < j {
      RankRises(nodes, i, j);
    } else if j < i {
      RankRises(nodes, j, i);
    }
  }

  lemma {:induction false} DealtIsValid(nodes: seq<Node>, number: int)
    requires number > 0 && Dealt(nodes, number) && Distinguished(nodes)
    requires forall i :: 0 <= i < |nodes| ==> NamedNode(nodes[i])
    ensures ValidPlan(nodes)
  {
    hide NamedNode, Distinguished, RangeSlots;
    forall i | 0 <= i < |nodes|
      ensures ValidNode(nodes[i])
    {
      if nodes[i].role == Master {
        BoundsRise(number, Rank(nodes, i), Rank(nodes, i) + 1);
        hide Bound;
      }
    }
    forall i, j, s | Holder(nodes, i, s) && Holder(nodes, j, s)
      ensures i == j
    {
      DealtApart(nodes, number, i, j, s);
    }
  }

  /**
   From `divideSlots` through the printed lines to the proxy's table: every slot is with
   exactly the master it was dealt to, and if that master has one slave, the slave is listed
   for the slot, alone.
   */
  lemma {:induction false} DealtPlanRecovered(nodes: seq<Node>, name: string, port: int, p: Parsed, s: int)
      returns (i: nat)
    requires Rank(nodes, |nodes|) > 0 && Dealt(nodes, Rank(nodes, |nodes|)) && Distinguished(nodes)
    requires forall i :: 0 <= i < |nodes| ==> NamedNode(nodes[i])
    requires Agrees(ScanLines(Kept(Split(NodeLines(nodes, name, port), '\n'))), p) && 0 <= s < SLOTS
    ensures i < |nodes| && nodes[i].role == Master && |nodes[i].slots| == 1 && InRange(nodes[i].slots[0], s)
    ensures p.NodeSlots? && |p.slots| == |p.slaveSlots| == SLOTS
    ensures p.slots[s] == Addr(nodes[i]) && forall k :: Holder(nodes, k, s) ==> k == i
    ensures forall j :: OnlyFollower(nodes, j, i) ==> p.slaveSlots[s] == [Addr(nodes[j])]
  {
    var number := Rank(nodes, |nodes|);
    hide NamedNode, Distinguished, RangeSlots, Agrees, ScanLines, Kept, Split, NodeLines, Addr, ValidPlan,
         SlavesOf, KnowsNodes, RangeAt, Follows, InRange;
    DealtIsValid(nodes, number);
    PlanRecovered(nodes, name, port, p);
    EverySlotOnce(number, s);
    var c: nat :| c < number && InRange(RangeAt(number, c), s);
    i := RankTaken(nodes, c, |nodes|);
    DealtHolder(nodes, number, i, s);
    forall k | Holder(nodes, k, s)
      ensures k == i
    {
      DealtApart(nodes, number, k, i, s);
    }
    forall j | OnlyFollower(nodes, j, i)
      ensures p.slaveSlots[s] == [Addr(nodes[j])]
    {
      OneSlave(nodes, p.slaveSlots, i, j, s);
    }
  }
}
