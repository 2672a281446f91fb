/**
 The parser of proxy/proto/redis/cluster/slot.go as it runs, with what it makes of lines that
 were printed.
 */
module ConfParser {
  import opened Common
  import opened Text
  import opened Words
  import opened Slots
  import opened NodesConf
  import opened ConfRoundTrip

  /** A printed range is read as its slots. */
  ghost predicate ReadsRange(val: string, r: Option<seq<int>>) {
    forall s :: ValidRange(s) && val == SlotWord(s) ==>
      r == if s.begin <= s.end then Some(Span(s.begin, s.end)) else None
  }

  lemma {:induction false} RangeIsRead(val: string)
    ensures ReadsRange(val, SlotField(val))
  {
    hide SlotField, SlotWord;
    forall s | ValidRange(s) && val == SlotWord(s)
      ensures SlotField(val) == if s.begin <= s.end then Some(Span(s.begin, s.end)) else None
    {
      SlotRoundTrip(s);
    }
  }

  method ParseSlotField(val: string) returns (r: Option<seq<int>>)
    ensures r == SlotField(val) && ReadsRange(val, r)
  {
    hide Find, ReadsRange;
    RangeIsRead(val);
    if val == "" || val == "-" {
      return None;
    }
    if val[0] == '[' && val[|val| - 1] == ']' {
      var at := Find(val, "->-");
      if at < 0 {
        return None;
      }
      var slot := Atoi(TrimBrackets(val[..at]));
      return if slot.None? then None else Some([slot.value]);
    }
    var i := Find(val, "-");
    var begin := Atoi(if i < 0 then val else val[..i]);
    if begin.None? {
      return None;
    }
    if i < 0 {
      return Some([begin.value]);
    }
    var end := Atoi(val[i + 1..]);
    if end.None? || end.value < begin.value {
      return None;
    }
    var slots := Enumerate(begin.value, end.value);
    return Some(slots);
  }

  method Enumerate(begin: int, end: int) returns (slots: seq<int>)
    requires begin <= end
    ensures slots == Span(begin, end)
  {
    slots := [];
    var k := begin;
    while k <= end
      invariant begin <= k <= end + 1
      invariant Span(begin, end) == slots + Span(k, end)
    {
      slots := slots + [k];
      k := k + 1;
    }
  }

  method SetSlots(words: seq<string>) returns (slots: seq<int>)
    ensures slots == FieldSlots(words)
  {
    hide SlotField;
    slots := [];
    for i := 0 to |words|
      invariant slots == FieldSlots(words[..i])
    {
      var sub := ParseSlotField(words[i]);
      if sub.Some? {
        slots := slots + sub.value;
      }
      assert words[..i + 1][..i] == words[..i];
    }
    assert words[..|words|] == words;
  }

  /** A printed line is read as its node. */
  ghost predicate ReadsNode(line: string, r: Option<NodeRec>) {
    forall n, myself :: ValidNode(n) && line == LineText(n, myself) ==> r == Some(Rec(n, myself))
  }

  lemma {:induction false} NodeIsRead(line: string)
    ensures ReadsNode(line, LineNode(line))
  {
    hide LineNode, LineText, ValidNode, Rec;
    forall n, myself | ValidNode(n) && line == LineText(n, myself)
      ensures LineNode(line) == Some(Rec(n, myself))
    {
      LineRoundTrip(n, myself);
    }
  }

  method ParseNode(line: string) returns (r: Option<NodeRec>)
    ensures r == LineNode(line) && ReadsNode(line, r)
  {
    hide ReadsNode;
    NodeIsRead(line);
    if Blank(line) {
      return None;
    }
    var words := Fields(line);
    if |words| < 8 {
      return None;
    }
    var slots := SetSlots(words[8..]);
    return Some(NodeRec(words[0], Split(words[1], '@')[0], RoleOf(words[2]), Split(words[2], ','), words[3], words[7],
                        slots));
  }

  method FillMaster(slots: array<string>, sub: seq<int>, addr: string) returns (ok: bool)
    requires slots.Length == SLOTS
    modifies slots
    ensures ok <==> InTable(sub)
    ensures ok ==> slots[..] == Filled(old(slots[..]), sub, addr)
  {
    for k := 0 to |sub|
      invariant forall j :: 0 <= j < k ==> 0 <= sub[j] < SLOTS
      invariant forall s :: 0 <= s < SLOTS ==> slots[s] == if s in sub[..k] then addr else old(slots[s])
    {
      if sub[k] < 0 || sub[k] >= SLOTS {
        return false;
      }
      slots[sub[k]] := addr;
      assert sub[..k + 1] == sub[..k] + [sub[k]];
    }
    assert sub[..|sub|] == sub;
    return true;
  }

  method AppendSlave(slaveSlots: array<seq<string>>, sub: seq<int>, addr: string)
    requires slaveSlots.Length == SLOTS && InTable(sub)
    modifies slaveSlots
    ensures forall s, a :: 0 <= s < SLOTS ==>
      multiset(slaveSlots[s])[a] == old(multiset(slaveSlots[s])[a]) + if a == addr then multiset(sub)[s] else 0
  {
    for k := 0 to |sub|
      invariant forall s, a :: 0 <= s < SLOTS ==>
        multiset(slaveSlots[s])[a] == old(multiset(slaveSlots[s])[a]) + if a == addr then multiset(sub[..k])[s] else 0
    {
      slaveSlots[sub[k]] := slaveSlots[sub[k]] + [addr];
      assert sub[..k + 1] == sub[..k] + [sub[k]];
    }
    assert sub[..|sub|] == sub;
  }

  /** The loop over all nodes, in any order. */
  method FillSlaves(ghost sc: Scan, nodes: map<string, NodeRec>, ids: map<string, NodeRec>)
      returns (slaveSlots: array<seq<string>>)
    requires sc.Scanned? && Tidy(sc) && sc.nodes == nodes && sc.ids == ids
    ensures fresh(slaveSlots) && slaveSlots.Length == SLOTS
    ensures forall s, a :: 0 <= s < SLOTS ==> multiset(slaveSlots[s])[a] == Listings(sc, a, s)
  {
    slaveSlots := new seq<string>[SLOTS](_ => []);
    var left := nodes.Keys;
    while left != {}
      invariant left <= nodes.Keys
      invariant forall s, a :: 0 <= s < SLOTS ==>
        multiset(slaveSlots[s])[a] == if a in left then 0 else Listings(sc, a, s)
      decreases |left|
    {
      var addr :| addr in left;
      var node := nodes[addr];
      if node.role == "slave" && node.slaveOf in ids {
        AppendSlave(slaveSlots, ids[node.slaveOf].slots, node.addr);
      }
      left := left - {addr};
    }
  }

  /** The loop over the lines. */
  method ScanMasters(lines: seq<string>, slots: array<string>) returns (sc: Scan)
    requires slots.Length == SLOTS && slots[..] == NoLines().slots
    modifies slots
    ensures sc == ScanLines(lines)
  {
    hide LineNode, InTable;
    var nodes: map<string, NodeRec>, ids: map<string, NodeRec> := map[], map[];
    for i := 0 to |lines|
      invariant ScanLines(lines[..i]) == Scanned(nodes, ids, slots[..])
    {
      assert lines[..i + 1][..i] == lines[..i];
      var node := ParseNode(lines[i]);
      if node.None? {
        ScanStuck(lines, i + 1);
        return Rejected;
      }
      var r := node.value;
      nodes := nodes[r.addr := r];
      if r.role == "master" {
        ids := ids[r.id := r];
        var ok := FillMaster(slots, r.slots, r.addr);
        if !ok {
          ScanStuck(lines, i + 1);
          return Crashed;
        }
      }
    }
    assert lines[..|lines|] == lines;
    return Scanned(nodes, ids, slots[..]);
  }

  method KeepLines(all: seq<string>) returns (lines: seq<string>)
    ensures lines == Kept(all)
  {
    lines := [];
    for i := 0 to |all|
      invariant lines == Kept(all[..i])
    {
      if !Blank(all[i]) {
        lines := lines + [all[i]];
      }
      assert all[..i + 1][..i] == all[..i];
    }
    assert all[..|all|] == all;
  }

  /** The printed lines of a plan are read as the plan. */
  ghost predicate ReadsPlan(data: string, p: Parsed) {
    forall nodes, name, port :: ValidPlan(nodes) && data == NodeLines(nodes, name, port) ==> Recovers(nodes, p)
  }

  lemma {:induction false} PlanIsRead(data: string, p: Parsed)
    requires Agrees(ScanLines(Kept(Split(data, '\n'))), p)
    ensures ReadsPlan(data, p)
  {
    hide Agrees, ScanLines, Kept, Split, NodeLines, ValidPlan, Recovers;
    forall nodes, name, port | ValidPlan(nodes) && data == NodeLines(nodes, name, port)
      ensures Recovers(nodes, p)
    {
      PlanRecovered(nodes, name, port, p);
    }
  }

  method ParseSlots(data: string) returns (p: Parsed)
    ensures Agrees(ScanLines(Kept(Split(data, '\n'))), p) && ReadsPlan(data, p)
  {
    p := ScanAndFill(data);
    hide *;
    PlanIsRead(data, p);
  }

  /** Both passes of `parseSlots`. */
  method ScanAndFill(data: string) returns (p: Parsed)
    ensures Agrees(ScanLines(Kept(Split(data, '\n'))), p)
  {
    var lines := KeepLines(Split(data, '\n'));
    ScanTidy(lines);
    hide ScanLines, Split, Kept;
    var slots := new string[SLOTS](_ => "");
    assert slots[..] == NoLines().slots;
    var sc := ScanMasters(lines, slots);
    match sc
    case Rejected => return ParseError;
    case Crashed => return IndexPanic;
    case Scanned(nodes, ids, _) =>
      var slaveSlots := FillSlaves(sc, nodes, ids);
      return NodeSlots(nodes, sc.slots, slaveSlots[..]);
  }
}
