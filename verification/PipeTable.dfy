/**
 The table of node pipes across topology changes: `initSlotNode` of
 proxy/proto/redis/cluster/cluster.go, `getMasters` of proxy/proto/redis/cluster/slot.go,
 and `Update` with `connections.init` of proxy/forwarder.go.
 */
module PipeTable {
  import opened Common
  import opened NodesConf

  /** A node pipe. Closing one twice panics, so the number of closings is kept. */
  class Pipe {
    const addr: string
    var closings: nat

    constructor (addr: string)
      ensures this.addr == addr && closings == 0
    {
      this.addr := addr;
      closings := 0;
    }

    method Close()
      modifies this
      ensures closings == old(closings) + 1
    {
      closings := closings + 1;
    }
  }

  /** Each address has a pipe of its own. */
  ghost predicate Keyed(pipes: map<string, Pipe>) {
    forall a :: a in pipes ==> pipes[a].addr == a
  }

  /** Closes the pipes of a table except those of the addresses to keep. */
  method CloseOthers(pipes: map<string, Pipe>, keep: set<string>)
    requires Keyed(pipes)
    modifies pipes.Values
    ensures forall a :: a in pipes ==> pipes[a].closings == old(pipes[a].closings) + if a in keep then 0 else 1
  {
    var left := pipes.Keys;
    while left != {}
      invariant left <= pipes.Keys
      invariant forall a :: a in pipes ==>
        pipes[a].closings == old(pipes[a].closings) + if a in left || a in keep then 0 else 1
      decreases |left|
    {
      var a :| a in left;
      if a !in keep {
        pipes[a].Close();
      }
      left := left - {a};
    }
  }

  // ---------------------------------------------------------------- listed masters

  predicate Normal(n: NodeRec) {
    (forall f :: f in n.flags ==> f == "master" || f == "slave" || f == "myself") && n.linkState == "connected"
  }

  predicate Listed(nodes: map<string, NodeRec>, addr: string) {
    addr in nodes && nodes[addr].role == "master" && Normal(nodes[addr])
  }

  /** `parseSlots` keeps every node under its address. */
  method GetMasters(nodes: map<string, NodeRec>) returns (masters: seq<string>)
    requires forall a :: a in nodes ==> nodes[a].addr == a
    ensures Distinct(masters) && forall a :: a in masters <==> Listed(nodes, a)
  {
    masters := [];
    var left := nodes.Keys;
    while left != {}
      invariant left <= nodes.Keys && Distinct(masters)
      invariant forall a :: a in masters <==> a !in left && Listed(nodes, a)
      decreases |left|
    {
      var a :| a in left;
      if nodes[a].role == "master" && Normal(nodes[a]) {
        masters := masters + [nodes[a].addr];
      }
      left := left - {a};
    }
  }

  // ---------------------------------------------------------------- the table

  /** `now` has the pipes of `was` where it can and those of `created` elsewhere. */
  ghost predicate Renewed(was: map<string, Pipe>, now: map<string, Pipe>, addrs: seq<string>, created: set<Pipe>) {
    && Keyed(now) && (forall a :: a in now <==> a in addrs)
    && (forall a :: a in now ==> if a in was then now[a] == was[a] else now[a] in created)
    && forall p :: p in created ==> p.addr in now && now[p.addr] == p && p.addr !in was
  }

  /** The loop over the listed addresses, on a copy of the old table. */
  method Renew(was: map<string, Pipe>, masters: seq<string>)
    returns (now: map<string, Pipe>, oncp: map<string, Pipe>, ghost created: set<Pipe>)
    requires Keyed(was) && Distinct(masters)
    ensures Renewed(was, now, masters, created)
    ensures fresh(created) && forall p :: p in created ==> p.closings == 0
    ensures forall a :: a in oncp <==> a in was && a !in masters
    ensures forall a :: a in oncp ==> oncp[a] == was[a]
  {
    oncp := was;
    now := map[];
    created := {};
    for i := 0 to |masters|
      invariant forall a :: a in oncp <==> a in was && a !in masters[..i]
      invariant forall a :: a in oncp ==> oncp[a] == was[a]
      invariant Renewed(was, now, masters[..i], created)
      invariant fresh(created) && forall p :: p in created ==> p.closings == 0
    {
      var addr := masters[i];
      assert masters[..i + 1] == masters[..i] + [addr] && addr !in masters[..i];
      var ncp: Pipe;
      if addr in oncp {
        ncp := oncp[addr];
        oncp := oncp - {addr};
      } else {
        ncp := new Pipe(addr);
        created := created + {ncp};
      }
      now := now[addr := ncp];
    }
    assert masters[..|masters|] == masters;
  }

  /** Some address without a pipe is listed twice. */
  ghost predicate NewTwice(was: map<string, Pipe>, addrs: seq<string>) {
    exists i, j :: 0 <= i < j < |addrs| && addrs[i] == addrs[j] && addrs[i] !in was
  }

  lemma {:induction false} NewTwiceStep(was: map<string, Pipe>, addrs: seq<string>, addr: string)
    ensures NewTwice(was, addrs + [addr]) <==> NewTwice(was, addrs) || (addr in addrs && addr !in was)
  {
    var more := addrs + [addr];
    if NewTwice(was, addrs) {
      var i, j :| 0 <= i < j < |addrs| && addrs[i] == addrs[j] && addrs[i] !in was;
      assert more[i] == more[j];
    }
    if addr in addrs && addr !in was {
      var i :| 0 <= i < |addrs| && addrs[i] == addr;
      assert more[i] == more[|addrs|];
    }
  }

  lemma RenewedNone(was: map<string, Pipe>)
    ensures Renewed(was, map[], [], {}) && !NewTwice(was, [])
  {
  }

  lemma RenewedOld(was: map<string, Pipe>, now: map<string, Pipe>, addrs: seq<string>, created: set<Pipe>, addr: string)
    requires Renewed(was, now, addrs, created) && Keyed(was) && addr in was
    ensures Renewed(was, now[addr := was[addr]], addrs + [addr], created)
  {
  }

  lemma RenewedNew(was: map<string, Pipe>, now: map<string, Pipe>, addrs: seq<string>, created: set<Pipe>, p: Pipe)
    requires Renewed(was, now, addrs, created) && p.addr !in was
    ensures p.addr in now <==> p.addr in addrs
    ensures p.addr in now ==> now[p.addr] in created
    ensures Renewed(was, now[p.addr := p], addrs + [p.addr],
      created - (if p.addr in now then {now[p.addr]} else {}) + {p})
  {
  }

  /** The loop of `connections.init`. A pipe made for an address is lost if the address comes again. */
  method InitPipes(was: map<string, Pipe>, addrs: seq<string>)
    returns (now: map<string, Pipe>, copied: set<string>, ghost created: set<Pipe>, ghost lost: set<Pipe>)
    requires Keyed(was)
    ensures Renewed(was, now, addrs, created) && created !! lost
    ensures lost != {} <==> NewTwice(was, addrs)
    ensures fresh(created + lost) && forall p :: p in created + lost ==> p.closings == 0
    ensures forall a :: a in copied <==> a in was && a in addrs
  {
    RenewedNone(was);
    hide Renewed, NewTwice, Keyed;
    now := map[];
    copied := {};
    created, lost := {}, {};
    assert addrs[..0] == [];
    for i := 0 to |addrs|
      invariant Renewed(was, now, addrs[..i], created) && created !! lost
      invariant lost != {} <==> NewTwice(was, addrs[..i])
      invariant fresh(created + lost) && forall p :: p in created + lost ==> p.closings == 0
      invariant forall a :: a in copied <==> a in was && a in addrs[..i]
    {
      var addr := addrs[i];
      assert addrs[..i + 1] == addrs[..i] + [addr];
      NewTwiceStep(was, addrs[..i], addr);
      if addr in was {
        RenewedOld(was, now, addrs[..i], created, addr);
        now := now[addr := was[addr]];
        copied := copied + {addr};
      } else {
        var cnn := new Pipe(addr);
        RenewedNew(was, now, addrs[..i], created, cnn);
        ghost var gone := if addr in now then {now[addr]} else {};
        created, lost := created - gone + {cnn}, lost + gone;
        now := now[addr := cnn];
      }
    }
    assert addrs[..|addrs|] == addrs;
  }

  class Table {
    var nodePipe: map<string, Pipe>
    /** All pipes ever made for this table, and those of them that were never in it. */
    ghost var made: set<Pipe>
    ghost var lost: set<Pipe>

    /** The pipes in the table are open, each under its address; all others were closed once. */
    ghost predicate Valid()
      reads this, made
    {
      && Keyed(nodePipe) && nodePipe.Values <= made && lost <= made && nodePipe.Values !! lost
      && forall p :: p in made ==> p.closings == if p in nodePipe.Values || p in lost then 0 else 1
    }

    constructor ()
      ensures Valid() && nodePipe == map[] && made == {} && lost == {}
    {
      nodePipe := map[];
      made := {};
      lost := {};
    }

    /** What a refresh to `addrs` does with each pipe of the table before it. */
    twostate predicate Refreshed(addrs: seq<string>)
      reads this
    {
      && (forall a :: a in nodePipe <==> a in addrs)
      && (forall a :: a in addrs && a in old(nodePipe) ==> nodePipe[a] == old(nodePipe[a]))
      && (forall a :: a in addrs && a !in old(nodePipe) ==> nodePipe[a] !in old(made))
      && old(made) <= made
    }

    /** `initSlotNode`: the addresses come from `getMasters`. */
    method InitSlotNode(masters: seq<string>)
      requires Valid() && Distinct(masters)
      modifies this, nodePipe.Values
      ensures Valid() && Refreshed(masters) && fresh(made - old(made)) && lost == old(lost)
    {
      var sn, oncp;
      ghost var created;
      sn, oncp, created := Renew(nodePipe, masters);
      nodePipe := sn;
      made := made + created;
      CloseOthers(oncp, {});
    }

    /** `Update`; `None` stands for a server list that does not parse. */
    method Update(servers: Option<seq<string>>) returns (ok: bool)
      requires Valid()
      modifies this, nodePipe.Values
      ensures Valid() && ok == servers.Some? && fresh(made - old(made))
      ensures ok ==> Refreshed(servers.value)
      ensures ok ==> (lost == old(lost) <==> !NewTwice(old(nodePipe), servers.value))
      ensures old(lost) <= lost && fresh(lost - old(lost))
      ensures !ok ==> nodePipe == old(nodePipe) && made == old(made) && lost == old(lost)
    {
      hide NewTwice;
      if servers.None? {
        return false;
      }
      var now, copied;
      ghost var created, gone;
      now, copied, created, gone := InitPipes(nodePipe, servers.value);
      var was := nodePipe;
      nodePipe := now;
      made := made + created + gone;
      lost := lost + gone;
      CloseOthers(was, copied);
      ok := true;
    }
  }

  // ---------------------------------------------------------------- whole runs

  /** `addr` is on every list of the history. */
  predicate Always(history: seq<seq<string>>, addr: string) {
    forall k :: 0 <= k < |history| ==> addr in history[k]
  }

  /**
   Any sequence of refreshes. A pipe stays in the table, open, exactly as long as its address
   stays listed; one that ever went is closed, once, and does not come back.
   */
  method Refreshes(t: Table, history: seq<seq<string>>)
    requires t.Valid() && forall k :: 0 <= k < |history| ==> Distinct(history[k])
    modifies t, t.made
    ensures t.Valid() && old(t.made) <= t.made && t.lost == old(t.lost)
    ensures history != [] ==> forall a :: a in t.nodePipe <==> a in history[|history| - 1]
    ensures forall a :: a in old(t.nodePipe) ==>
      var p := old(t.nodePipe[a]);
      if Always(history, a) then a in t.nodePipe && t.nodePipe[a] == p && p.closings == 0
      else p !in t.nodePipe.Values && p.closings == 1
  {
    ghost var was := t.nodePipe;
    for i := 0 to |history|
      invariant t.Valid() && old(t.made) <= t.made && fresh(t.made - old(t.made)) && t.lost == old(t.lost)
      invariant i > 0 ==> forall a :: a in t.nodePipe <==> a in history[i - 1]
      invariant forall a :: a in was ==>
        if Always(history[..i], a) then a in t.nodePipe && t.nodePipe[a] == was[a]
        else was[a] !in t.nodePipe.Values
    {
      t.InitSlotNode(history[i]);
      forall a | a in was
        ensures Always(history[..i + 1], a) <==> Always(history[..i], a) && a in history[i]
      {
        AlwaysStep(history, i, a);
      }
      hide Always;
    }
    assert history[..|history|] == history;
  }

  lemma {:induction false} AlwaysStep(history: seq<seq<string>>, i: nat, a: string)
    requires i < |history|
    ensures Always(history[..i + 1], a) <==> Always(history[..i], a) && a in history[i]
  {
    if Always(history[..i + 1], a) {
      assert history[..i + 1][i] == history[i];
      forall k | 0 <= k < i
        ensures a in history[..i][k]
      {
        assert history[..i][k] == history[..i + 1][k];
      }
    }
  }

  /** `addr` is on every list that parses. */
  predicate Stays(history: seq<Option<seq<string>>>, addr: string) {
    forall k :: 0 <= k < |history| && history[k].Some? ==> addr in history[k].value
  }

  /** The addresses of the table before update `k`. */
  function Before(keys: set<string>, history: seq<Option<seq<string>>>, k: nat): set<string>
    requires k <= |history|
  {
    if k == 0 then keys
    else match history[k - 1]
      case None => Before(keys, history, k - 1)
      case Some(addrs) => set a | a in addrs
  }

  /** Update `k` lists an address twice that is not in the table. */
  ghost predicate Loses(keys: set<string>, history: seq<Option<seq<string>>>, k: int) {
    0 <= k < |history| && history[k].Some? &&
    var addrs := history[k].value;
    exists i, j :: 0 <= i < j < |addrs| && addrs[i] == addrs[j] && addrs[i] !in Before(keys, history, k)
  }

  lemma {:induction false} StaysStep(history: seq<Option<seq<string>>>, k: nat, a: string)
    requires k < |history|
    ensures Stays(history[..k + 1], a) <==> Stays(history[..k], a) && (history[k].Some? ==> a in history[k].value)
  {
    var more, init := history[..k + 1], history[..k];
    assert more[k] == history[k] && forall i :: 0 <= i < k ==> more[i] == init[i];
    if Stays(more, a) {
      forall i | 0 <= i < k && init[i].Some?
        ensures a in init[i].value
      {
        assert more[i] == init[i];
      }
    }
  }

  /** What a run of updates makes of the pipes the table began with. */
  ghost predicate KeptOrClosed(history: seq<Option<seq<string>>>, was: map<string, Pipe>, now: map<string, Pipe>) {
    forall a :: a in was ==> if Stays(history, a) then a in now && now[a] == was[a] else was[a] !in now.Values
  }

  lemma {:induction false} LosesIsNewTwice(was: map<string, Pipe>, keys: set<string>, history: seq<Option<seq<string>>>,
      k: nat)
    requires k < |history| && history[k].Some? && was.Keys == Before(keys, history, k)
    ensures Loses(keys, history, k) <==> NewTwice(was, history[k].value)
  {
  }

  lemma {:induction false} BeforeNext(keys: set<string>, history: seq<Option<seq<string>>>, k: nat, now: map<string,
      Pipe>)
    requires k < |history|
    requires
      match history[k]
      case None => now.Keys == Before(keys, history, k)
      case Some(addrs) => forall a :: a in now <==> a in addrs
    ensures now.Keys == Before(keys, history, k + 1)
  {
  }

  method OneUpdate(t: Table, history: seq<Option<seq<string>>>, k: nat, ghost keys: set<string>, ghost was: map<string,
      Pipe>)
    requires t.Valid() && k < |history| && t.nodePipe.Keys == Before(keys, history, k)
    requires was.Values <= t.made && KeptOrClosed(history[..k], was, t.nodePipe)
    modifies t, t.nodePipe.Values
    ensures t.Valid() && old(t.made) <= t.made && fresh(t.made - old(t.made))
    ensures old(t.lost) <= t.lost && fresh(t.lost - old(t.lost)) &&
      (t.lost == old(t.lost) <==> !Loses(keys, history, k))
    ensures t.nodePipe.Keys == Before(keys, history, k + 1) && KeptOrClosed(history[..k + 1], was, t.nodePipe)
  {
    hide Loses, Before, NewTwice, Stays;
    if history[k].Some? {
      LosesIsNewTwice(t.nodePipe, keys, history, k);
    } else {
      NotALoss(keys, history, k);
    }
    forall a
      ensures Stays(history[..k + 1], a) <==> Stays(history[..k], a) && (history[k].Some? ==> a in history[k].value)
    {
      StaysStep(history, k, a);
    }
    var ok := t.Update(history[k]);
    BeforeNext(keys, history, k, t.nodePipe);
  }

  lemma NotALoss(keys: set<string>, history: seq<Option<seq<string>>>, k: nat)
    requires k < |history| && history[k].None?
    ensures !Loses(keys, history, k)
  {
  }

  /**
   Any sequence of updates, lists that do not parse included. A pipe stays in the table, open,
   exactly as long as its address stays listed, and is closed once when it goes; a pipe is lost
   exactly when some update lists a new address twice.
   */
  method Updates(t: Table, history: seq<Option<seq<string>>>)
    requires t.Valid()
    modifies t, t.made
    ensures t.Valid() && t.nodePipe.Keys == Before(old(t.nodePipe.Keys), history, |history|)
    ensures KeptOrClosed(history, old(t.nodePipe), t.nodePipe)
    ensures forall a :: a in old(t.nodePipe) ==> old(t.nodePipe[a]).closings == if Stays(history, a) then 0 else 1
    ensures t.lost == old(t.lost) <==> forall k :: 0 <= k < |history| ==> !Loses(old(t.nodePipe.Keys), history, k)
  {
    ghost var was, keys := t.nodePipe, t.nodePipe.Keys;
    NoneYet(keys, history, was);
    hide Loses, Before, KeptOrClosed;
    for k := 0 to |history|
      invariant t.Valid() && old(t.made) <= t.made && fresh(t.made - old(t.made))
      invariant old(t.lost) <= t.lost && fresh(t.lost - old(t.lost))
      invariant t.nodePipe.Keys == Before(keys, history, k)
      invariant KeptOrClosed(history[..k], was, t.nodePipe)
      invariant t.lost == old(t.lost) <==> forall j :: 0 <= j < k ==> !Loses(keys, history, j)
    {
      OneUpdate(t, history, k, keys, was);
    }
    assert history[..|history|] == history;
    ClosedOnce(t, history, was);
  }

  lemma {:induction false} NoneYet(keys: set<string>, history: seq<Option<seq<string>>>, was: map<string, Pipe>)
    ensures Before(keys, history, 0) == keys && KeptOrClosed(history[..0], was, was)
  {
  }

  /** Pipes the table began with and lost track of were closed. */
  lemma {:induction false} ClosedOnce(t: Table, history: seq<Option<seq<string>>>, was: map<string, Pipe>)
    requires t.Valid() && KeptOrClosed(history, was, t.nodePipe) && was.Values <= t.made && was.Values !! t.lost
    ensures forall a :: a in was ==> was[a].closings == if Stays(history, a) then 0 else 1
  {
    hide Stays;
    forall a | a in was
      ensures was[a].closings == if Stays(history, a) then 0 else 1
    {
      assert was[a] in t.made && was[a] !in t.lost;
    }
  }

  /** A new address listed twice: the table has one pipe for it, and another is open for good. */
  method TwiceListed() returns (t: Table)
    ensures t.Valid() && t.nodePipe.Keys == {"a"}
    ensures exists p :: p in t.made && p.closings == 0 && p !in t.nodePipe.Values
  {
    t := new Table();
    var addrs := ["a", "a"];
    assert addrs[0] == addrs[1] && addrs[0] !in t.nodePipe;
    assert NewTwice(t.nodePipe, addrs);
    var ok := t.Update(Some(addrs));
    assert t.lost != {};
    ghost var p :| p in t.lost;
    assert forall a :: a in t.nodePipe <==> a == "a";
  }
}
