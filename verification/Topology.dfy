/**
 A topology refresh of proxy/proto/redis/cluster/cluster.go from text to pipes: the node lines are
 parsed, the masters picked out and the table of pipes renewed.
 */
module Topology {
  import opened Common
  import opened Text
  import opened Words
  import opened NodesConf
  import opened ConfRoundTrip
  import opened ConfParser
  import opened PipeTable

  /** `addr` is printed as a master's. */
  ghost predicate MasterAt(nodes: seq<Node>, addr: string) {
    exists i :: 0 <= i < |nodes| && nodes[i].role == Master && Addr(nodes[i]) == addr
  }

  lemma {:induction false} ListedIfMaster(r: NodeRec, n: Node)
    requires Says(r, n)
    ensures r.role == "master" && Normal(r) <==> n.role == Master
  {
    hide Pad40, RangeSlots, Addr;
  }

  // ---------------------------------------------------------------- lines of a running cluster

  /** Flags as a line lists them. */
  function Commas(fs: seq<string>): string
    requires fs != []
  {
    if |fs| == 1 then fs[0] else fs[0] + [','] + Commas(fs[1..])
  }

  lemma {:induction false} SplitCommas(fs: seq<string>)
    requires fs != [] && forall k :: 0 <= k < |fs| ==> ',' !in fs[k]
    ensures Split(Commas(fs), ',') == fs
  {
    if |fs| == 1 {
      SplitWhole(fs[0], ',');
    } else {
      SplitCommas(fs[1..]);
      SplitCut(fs[0], ',', Commas(fs[1..]));
    }
  }

  /** A node that is not connected, or carries a flag beside its role, such as `fail`, is not used. */
  lemma {:induction false} DownIsNotNormal(line: string, words: seq<string>, fs: seq<string>)
    requires Fields(line) == words && |words| >= 8 && !Blank(line)
    requires fs != [] && (forall k :: 0 <= k < |fs| ==> ',' !in fs[k]) && words[2] == Commas(fs)
    ensures LineNode(line).Some?
    ensures Normal(LineNode(line).value) <==>
      words[7] == "connected" && forall k :: 0 <= k < |fs| ==> fs[k] in {"master", "slave", "myself"}
  {
    hide Fields, FieldSlots, RoleOf, Commas, Blank;
    SplitCommas(fs);
    var r := LineNode(line).value;
    assert r.flags == fs && r.linkState == words[7];
    hide LineNode;
    assert forall k :: 0 <= k < |fs| ==> fs[k] in r.flags;
  }

  /** The masters picked from a parsed plan are the masters of the plan. */
  lemma {:induction false} MastersListed(nodes: seq<Node>, known: map<string, NodeRec>, a: string)
    requires Distinguished(nodes) && KnowsNodes(nodes, known)
    ensures Listed(known, a) <==> MasterAt(nodes, a)
  {
    hide Pad40, RangeSlots, Addr, Says;
    if a in known {
      var i :| 0 <= i < |nodes| && Addr(nodes[i]) == a;
      ListedIfMaster(known[a], nodes[i]);
      forall j | 0 <= j < |nodes| && Addr(nodes[j]) == a
        ensures j == i
      {
      }
    } else {
      forall i | 0 <= i < |nodes|
        ensures Addr(nodes[i]) != a
      {
      }
    }
  }

  /**
   `initSlotNode` after `parseSlots`. On the printed lines of a plan the table has one open pipe
   for each of its masters; on text that does not parse nothing changes.
   */
  method Refresh(t: Table, text: string) returns (ok: bool)
    requires t.Valid()
    modifies t, t.nodePipe.Values
    ensures t.Valid() && t.lost == old(t.lost) && (!ok ==> t.nodePipe == old(t.nodePipe) && t.made == old(t.made))
    ensures forall a :: a in t.nodePipe && a in old(t.nodePipe) ==> t.nodePipe[a] == old(t.nodePipe[a])
    ensures forall nodes, name, port :: ValidPlan(nodes) && text == NodeLines(nodes, name, port) ==>
      ok && forall a :: a in t.nodePipe <==> MasterAt(nodes, a)
  {
    hide ScanLines, Kept, Split, NodeLines, ValidPlan, Listed, MasterAt, KnowsSlots, SlavesOf;
    var p := ParseSlots(text);
    ok := p.NodeSlots?;
    if ok {
      ghost var lines := Kept(Split(text, '\n'));
      ScanTidy(lines);
      assert forall a :: a in p.nodes ==> p.nodes[a].addr == a;
      var masters := GetMasters(p.nodes);
      t.InitSlotNode(masters);
      PlanMasters(text, p);
    }
  }

  lemma {:induction false} PlanMasters(text: string, p: Parsed)
    requires ReadsPlan(text, p) && p.NodeSlots?
    ensures forall nodes, name, port :: ValidPlan(nodes) && text == NodeLines(nodes, name, port) ==>
      forall a :: Listed(p.nodes, a) <==> MasterAt(nodes, a)
  {
    hide NodeLines, Listed, MasterAt, KnowsNodes, KnowsSlots, SlavesOf, ValidNodes, RangeSlots, Distinguished;
    forall nodes, name, port, a | ValidPlan(nodes) && text == NodeLines(nodes, name, port)
      ensures Listed(p.nodes, a) <==> MasterAt(nodes, a)
    {
      assert Recovers(nodes, p);
      MastersListed(nodes, p.nodes, a);
    }
  }
}
