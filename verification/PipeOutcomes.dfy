/**
 Which messages of a pipe fail and which succeed: proxy/proto/pipe.go fails a message exactly if
 its push met a full channel or something went wrong with its batch.
 */
module PipeOutcomes {
  import opened Common
  import opened NodePipe

  // ---------------------------------------------------------------- who is to blame

  /** That event `e` in state `s` is a failure of message `m`. */
  ghost predicate FailsFor(sup: Supported, s: State, e: Event, m: Msg) {
    match e
    case Push(p) => p == m && |s.queue| >= 1024
    case Write(ok) => !ok && (m in s.batch || m in InHand(s))
    case Flush(ok) => !ok && m in s.batch
    case Read(ok) => !ok && m in s.batch && s.phase.Reading? && s.phase.next < |s.batch| && sup(s.batch[s.phase.next])
    case _ => false
  }

  /** That the run has such an event. */
  ghost predicate Blamed(sup: Supported, run: seq<Event>, m: Msg) {
    exists k :: 0 <= k < |run| && FailsAt(sup, run, k, m)
  }

  ghost predicate FailsAt(sup: Supported, run: seq<Event>, k: int, m: Msg)
    requires 0 <= k < |run|
  {
    After(sup, run[..k]).Some? && FailsFor(sup, After(sup, run[..k]).value, run[k], m)
  }

  lemma {:induction false} BlamedStep(sup: Supported, run: seq<Event>, m: Msg)
    requires run != [] && After(sup, run[..|run| - 1]).Some?
    ensures
      var k := |run| - 1;
      Blamed(sup, run, m) <==> Blamed(sup, run[..k], m) || FailsFor(sup, After(sup, run[..k]).value, run[k], m)
  {
    hide FailsFor, After;
    var k := |run| - 1;
    var init := run[..k];
    assert forall j :: 0 <= j < k ==> run[..j] == init[..j] && run[j] == init[j];
    if Blamed(sup, init, m) {
      var j :| 0 <= j < k && FailsAt(sup, init, j, m);
      assert FailsAt(sup, run, j, m);
    }
    if FailsFor(sup, After(sup, init).value, run[k], m) {
      assert FailsAt(sup, run, k, m);
    }
    if Blamed(sup, run, m) {
      var j :| 0 <= j < |run| && FailsAt(sup, run, j, m);
      if j < k {
        assert FailsAt(sup, init, j, m);
      }
    }
  }

  // ---------------------------------------------------------------- the invariant

  predicate Failing(s: State) { s.phase.Ending? && s.phase.failed }

  /** `bad` are the messages to blame: exactly the failed completions and a failing batch. */
  ghost predicate Accounted(s: State, bad: iset<Msg>) {
    && (forall i :: 0 <= i < |s.done| ==> (s.done[i].failed <==> s.done[i].m in bad))
    && (forall m :: m in s.queue ==> m !in bad)
    && (forall m :: m in InHand(s) ==> m !in bad)
    && (forall m :: m in Pending(s) ==> (m in bad <==> Failing(s)))
    && (forall m :: m in bad ==> m in s.pushed)
  }

  /** A message is in one place only. */
  lemma {:induction false} OnlyThere(s: State, m: Msg)
    requires OnePlace(s) && (m in InHand(s) || m in Pending(s))
    ensures m in s.pushed && m !in s.queue && m !in DoneMsgs(s.done)
    ensures !(m in InHand(s) && m in Pending(s))
  {
    var q, h, p, d := multiset(s.queue), multiset(InHand(s)), multiset(Pending(s)), multiset(DoneMsgs(s.done));
    assert multiset(s.pushed)[m] == q[m] + h[m] + p[m] + d[m];
    assert multiset(s.pushed)[m] > 0;
    OnceInDistinct(s.pushed, m);
  }

  lemma {:induction false} DoneIsPushed(s: State, i: nat)
    requires OnePlace(s) && i < |s.done|
    ensures s.done[i].m in s.pushed
  {
    var m := s.done[i].m;
    assert DoneMsgs(s.done)[i] == m;
    assert multiset(DoneMsgs(s.done))[m] > 0;
    assert multiset(s.pushed)[m] > 0;
  }

  lemma {:induction false} PlacedIsPushed(s: State, m: Msg)
    requires OnePlace(s) && m in s.queue
    ensures m in s.pushed
  {
    assert multiset(s.queue)[m] > 0;
    assert multiset(s.pushed)[m] > 0;
  }

  lemma {:induction false} PushAccounted(sup: Supported, s: State, p: Msg, bad: iset<Msg>, worse: iset<Msg>)
    requires Accounted(s, bad) && OnePlace(s) && Bounded(s) && OnPush(s, p).Some?
    requires forall m :: m in worse <==> m in bad || FailsFor(sup, s, Push(p), m)
    ensures Accounted(OnPush(s, p).value, worse)
  {
    var t := OnPush(s, p).value;
    assert p !in bad;
    forall i | 0 <= i < |s.done|
      ensures s.done[i].m != p
    {
      DoneIsPushed(s, i);
    }
    forall m | m in InHand(s) || m in Pending(s)
      ensures m != p
    {
      OnlyThere(s, m);
    }
    forall m | m in s.queue
      ensures m != p
    {
      PlacedIsPushed(s, m);
    }
    assert Pending(t) == Pending(s) && InHand(t) == InHand(s);
  }

  /** A batch that goes wrong. */
  lemma {:induction false} BatchBlamed(s: State, t: State, bad: iset<Msg>, worse: iset<Msg>)
    requires Accounted(s, bad) && OnePlace(s) && !s.phase.Ending?
    requires t.phase == Ending(0, true) && t.queue == s.queue && t.done == s.done && t.pushed == s.pushed
    requires t.batch == s.batch + InHand(s) && t.hand.None?
    requires forall m :: m in worse <==> m in bad || m in t.batch
    ensures Accounted(t, worse)
  {
    assert Pending(s) == s.batch && Pending(t) == t.batch;
    forall m | m in t.batch
      ensures m in s.pushed && m !in s.queue && m !in DoneMsgs(s.done)
    {
      OnlyThere(s, m);
    }
    assert forall i :: 0 <= i < |s.done| ==> DoneMsgs(s.done)[i] == s.done[i].m;
  }

  lemma {:induction false} FinishAccounted(s: State, bad: iset<Msg>)
    requires Accounted(s, bad) && OnFinish(s).Some?
    ensures Accounted(OnFinish(s).value, bad)
  {
    var t := OnFinish(s).value;
    assert s.batch[s.phase.at] in Pending(s);
    assert Pending(t) == Pending(s)[1..];
  }

  lemma {:induction false} TakeAccounted(s: State, t: State, bad: iset<Msg>)
    requires Accounted(s, bad) && s.queue != [] && s.hand.None? && Pending(t) == Pending(s) &&
      (Failing(t) <==> Failing(s))
    requires t.hand == Some(s.queue[0]) && t.queue == s.queue[1..] && t.done == s.done && t.pushed == s.pushed
    ensures Accounted(t, bad)
  {
    assert s.queue[0] in s.queue;
  }

  lemma {:induction false} WriteAccounted(s: State, t: State, bad: iset<Msg>)
    requires Accounted(s, bad) && !s.phase.Ending? && !t.phase.Ending?
    requires t.batch == s.batch + InHand(s) && t.hand.None? && t.queue == s.queue && t.done == s.done &&
      t.pushed == s.pushed
    ensures Accounted(t, bad)
  {
    assert Pending(s) == s.batch && Pending(t) == s.batch + InHand(s);
  }

  /** Only the phase moves on, and the batch stays or is over. */
  lemma {:induction false} PhaseAccounted(s: State, t: State, bad: iset<Msg>)
    requires Accounted(s, bad) && (Pending(t) == [] || (Pending(t) == Pending(s) && (Failing(t) <==> Failing(s))))
    requires t.hand == s.hand && t.queue == s.queue && t.done == s.done && t.pushed == s.pushed
    ensures Accounted(t, bad)
  {
  }

  /** What does not go wrong for the first message of a batch goes right. */
  lemma {:induction false} QuietIsOk(sup: Supported, s: State, e: Event)
    requires Bounded(s) && Next(sup, s, e).Some? && forall m :: !FailsFor(sup, s, e, m)
    ensures e != Write(false) && (e == Flush(false) ==> s.batch == [])
    ensures e == Read(false) ==> s.phase.Reading? && s.phase.next < |s.batch| && !sup(s.batch[s.phase.next])
  {
    var sent := s.batch + InHand(s);
    var first := if sent == [] then 0 else sent[0];
    assert !FailsFor(sup, s, e, first);
  }

  /** A step that blames nobody. */
  lemma {:induction false} QuietAccounted(sup: Supported, s: State, e: Event, bad: iset<Msg>)
    requires Accounted(s, bad) && Bounded(s) && !e.Push? && Next(sup, s, e).Some?
    requires forall m :: !FailsFor(sup, s, e, m)
    ensures Accounted(Next(sup, s, e).value, bad)
  {
    QuietIsOk(sup, s, e);
    hide Accounted, FailsFor;
    var t := Next(sup, s, e).value;
    match e
    case Finish => FinishAccounted(s, bad);
    case Write(ok) => WriteAccounted(s, t, bad);
    case Flush(ok) => PhaseAccounted(s, t, bad);
    case Read(ok) => PhaseAccounted(s, t, bad);
    case EndBatch => PhaseAccounted(s, t, bad);
    case Take => TakeAccounted(s, t, bad);
    case Receive => TakeAccounted(s, t, bad);
    case Idle => PhaseAccounted(s, t, bad);
  }

  /** A step that goes wrong, other than a push. */
  lemma {:induction false} LoudAccounted(sup: Supported, s: State, e: Event, hit: Msg, bad: iset<Msg>, worse: iset<Msg>)
    requires Accounted(s, bad) && OnePlace(s) && Bounded(s) && !e.Push? && Next(sup, s, e).Some?
    requires FailsFor(sup, s, e, hit) && forall m :: m in worse <==> m in bad || FailsFor(sup, s, e, m)
    ensures Accounted(Next(sup, s, e).value, worse)
  {
    hide Accounted, OnePlace;
    var t := Next(sup, s, e).value;
    assert t.batch == s.batch + InHand(s);
    assert forall m :: m in t.batch <==> FailsFor(sup, s, e, m);
    BatchBlamed(s, t, bad, worse);
  }

  lemma {:induction false} StepAccounted(sup: Supported, s: State, e: Event, bad: iset<Msg>, worse: iset<Msg>)
    requires Accounted(s, bad) && Inv(sup, s) && Next(sup, s, e).Some?
    requires forall m :: m in worse <==> m in bad || FailsFor(sup, s, e, m)
    ensures Accounted(Next(sup, s, e).value, worse)
  {
    hide Accounted, FailsFor, OnePlace, Bounded, Matched, OwnReplies, InOrder;
    if e.Push? {
      PushAccounted(sup, s, e.m, bad, worse);
    } else if hit :| FailsFor(sup, s, e, hit) {
      LoudAccounted(sup, s, e, hit, bad, worse);
    } else {
      assert worse == bad;
      QuietAccounted(sup, s, e, bad);
    }
  }

  ghost function BlamedIn(sup: Supported, run: seq<Event>): iset<Msg> { iset m: Msg | Blamed(sup, run, m) }

  lemma {:induction false} RunAccounted(sup: Supported, run: seq<Event>)
    requires After(sup, run).Some?
    ensures Accounted(After(sup, run).value, BlamedIn(sup, run))
  {
    hide Next, FailsFor, Inv;
    if run != [] {
      var k := |run| - 1;
      hide Blamed, Accounted;
      RunAccounted(sup, run[..k]);
      EveryRun(sup, run[..k]);
      forall m: Msg
        ensures m in BlamedIn(sup, run) <==>
          m in BlamedIn(sup, run[..k]) || FailsFor(sup, After(sup, run[..k]).value, run[k], m)
      {
        BlamedStep(sup, run, m);
      }
      StepAccounted(sup, After(sup, run[..k]).value, run[k], BlamedIn(sup, run[..k]), BlamedIn(sup, run));
    } else {
      NobodyBlamed(sup);
    }
  }

  lemma {:induction false} NobodyBlamed(sup: Supported)
    ensures Accounted(INIT, BlamedIn(sup, []))
  {
    assert BlamedIn(sup, []) == iset{};
  }

  /**
   In every run a message that was completed carries an error if and only if its push found
   1024 messages in the channel, or a write, the flush or a read of its batch failed.
   */
  lemma {:induction false} FailedExactly(sup: Supported, run: seq<Event>, i: nat)
    requires After(sup, run).Some? && i < |After(sup, run).value.done|
    ensures
      var c := After(sup, run).value.done[i];
      c.failed <==> Blamed(sup, run, c.m)
  {
    hide After, Blamed;
    RunAccounted(sup, run);
  }

  // ---------------------------------------------------------------- who succeeds

  /** Messages that nothing has gone wrong with yet. */
  ghost predicate Spared(s: State, m: Msg) {
    m in s.queue || m in InHand(s) || (m in Pending(s) && !Failing(s))
  }

  /** Completed without an error and, if it asked for one, with the reply to its own request. */
  ghost predicate Served(sup: Supported, s: State, m: Msg) {
    exists i :: 0 <= i < |s.done| && s.done[i].m == m && !s.done[i].failed && (sup(m) ==> s.done[i].answer == Some(m))
  }

  lemma {:induction false} ServedStays(sup: Supported, s: State, t: State, m: Msg)
    requires Served(sup, s, m) && s.done <= t.done
    ensures Served(sup, t, m)
  {
    var i :| 0 <= i < |s.done| && s.done[i].m == m && !s.done[i].failed && (sup(m) ==> s.done[i].answer == Some(m));
    assert t.done[i] == s.done[i];
  }

  lemma {:induction false} GoodFinish(sup: Supported, s: State, m: Msg)
    requires OnFinish(s).Some? && OwnReplies(sup, OnFinish(s).value.done) && Spared(s, m)
    ensures Spared(OnFinish(s).value, m) || Served(sup, OnFinish(s).value, m)
  {
    var t := OnFinish(s).value;
    var k := |s.done|;
    assert Pending(s) == [s.batch[s.phase.at]] + Pending(t);
    assert t.done[k].m == s.batch[s.phase.at] && t.done[k].failed == s.phase.failed;
  }

  /** A step that completes nothing loses nothing, as long as it fails nothing. */
  lemma {:induction false} GoodMove(s: State, t: State, m: Msg)
    requires Spared(s, m) && (Failing(t) ==> Failing(s))
    requires InHand(t) + t.queue == InHand(s) + s.queue && Pending(t) == Pending(s)
    ensures Spared(t, m)
  {
    assert m in InHand(t) + t.queue <==> m in InHand(s) + s.queue;
  }

  lemma {:induction false} GoodWrite(s: State, t: State, m: Msg)
    requires Spared(s, m) && !s.phase.Ending? && !t.phase.Ending?
    requires t.batch == s.batch + InHand(s) && t.hand.None? && t.queue == s.queue
    ensures Spared(t, m)
  {
    assert Pending(s) == s.batch && Pending(t) == s.batch + InHand(s);
  }

  lemma {:induction false} GoodEnd(s: State, m: Msg)
    requires OnEndBatch(s).Some? && Spared(s, m) && Bounded(s)
    ensures Spared(OnEndBatch(s).value, m)
  {
    assert Pending(s) == [];
  }

  /** A step of the goroutine that succeeds spares or serves every message spared before. */
  lemma {:induction false} GoodStep(sup: Supported, s: State, m: Msg)
    requires Inv(sup, s) && !Resting(s) && Next(sup, s, OwnStep(sup, s, true)).Some? && Spared(s, m)
    ensures
      var t := Next(sup, s, OwnStep(sup, s, true)).value;
      Spared(t, m) || Served(sup, t, m)
  {
    hide OnePlace, InOrder, Matched, Spared, Served, OwnReplies;
    var e := OwnStep(sup, s, true);
    var t := Next(sup, s, e).value;
    StepOwnReplies(sup, s, e);
    if e.Finish? {
      GoodFinish(sup, s, m);
    } else if e.Write? {
      GoodWrite(s, t, m);
    } else if e.EndBatch? {
      GoodEnd(s, m);
    } else {
      assert InHand(t) + t.queue == InHand(s) + s.queue;
      assert Pending(t) == Pending(s);
      GoodMove(s, t, m);
    }
  }

  /**
   If nothing goes wrong from now on, every message in the channel, in the goroutine's hand or
   in a batch that has not failed is completed without an error, with its own reply.
   */
  lemma {:induction false} SparedAreServed(sup: Supported, s: State, n: nat, oks: nat -> bool, m: Msg)
    requires Inv(sup, s) && n >= Cost(s) && (forall k :: oks(k)) && Spared(s, m)
    ensures Served(sup, Work(sup, s, n, oks), m)
    decreases n
  {
    hide Inv, Next, OwnStep, Served, Spared, Cost, Resting;
    if Resting(s) {
      NoneSpared(sup, s, m);
    } else {
      CostPositive(s);
      assert oks(n);
      var e := OwnStep(sup, s, oks(n));
      OwnStepProgresses(sup, s, true);
      StepKeepsInv(sup, s, e);
      GoodStep(sup, s, m);
      var t := Next(sup, s, e).value;
      if Spared(t, m) {
        SparedAreServed(sup, t, n - 1, oks, m);
      } else {
        ServedAtEnd(sup, t, n - 1, oks, m);
      }
    }
  }

  lemma {:induction false} NoneSpared(sup: Supported, s: State, m: Msg)
    requires Inv(sup, s) && Resting(s)
    ensures !Spared(s, m)
  {
    assert s.batch == [] && s.hand.None?;
  }

  lemma {:induction false} ServedAtEnd(sup: Supported, s: State, n: nat, oks: nat -> bool, m: Msg)
    requires Served(sup, s, m)
    ensures Served(sup, Work(sup, s, n, oks), m)
    decreases n
  {
    hide Served, Next, OwnStep;
    if n > 0 && !Resting(s) && Next(sup, s, OwnStep(sup, s, oks(n))).Some? {
      var t := Next(sup, s, OwnStep(sup, s, oks(n))).value;
      DoneGrows(sup, s, OwnStep(sup, s, oks(n)));
      ServedStays(sup, s, t, m);
      ServedAtEnd(sup, t, n - 1, oks, m);
    }
  }

  lemma {:induction false} DoneGrows(sup: Supported, s: State, e: Event)
    requires Next(sup, s, e).Some?
    ensures s.done <= Next(sup, s, e).value.done
  {
  }

  /** A push is accepted if and only if the channel holds fewer than 1024 messages. */
  lemma {:induction false} PushAccepted(s: State, m: Msg)
    requires Bounded(s) && m !in s.pushed
    ensures OnPush(s, m).Some?
    ensures Spared(OnPush(s, m).value, m) <==> |s.queue| < 1024 || Spared(s, m)
    ensures |s.queue| >= 1024 ==> OnPush(s, m).value.done == s.done + [Completion(m, true, None)]
  {
    assert Pending(OnPush(s, m).value) == Pending(s) && InHand(OnPush(s, m).value) == InHand(s);
  }

  /** In every run the channel holds at most 1024 messages, and a batch that has 32 grows no more. */
  lemma {:induction false} Limits(sup: Supported, run: seq<Event>)
    requires After(sup, run).Some?
    ensures
      var s := After(sup, run).value;
      |s.queue| <= 1024 && |s.batch| <= 32 && (s.phase == Filling ==> |s.batch| < 32)
  {
    hide After;
    EveryRun(sup, run);
  }

  /** A batch is sent when it has 32 messages or nothing more is queued, and not before. */
  lemma {:induction false} SentWhenFullOrIdle(sup: Supported, run: seq<Event>, e: Event)
    requires After(sup, run).Some? && Next(sup, After(sup, run).value, e).Some?
    ensures
      var s, t := After(sup, run).value, Next(sup, After(sup, run).value, e).value;
      t.phase == Flushing ==>
        s.phase == Flushing || (|t.batch| == 32 && e == Write(true)) || (t.queue == [] && e == Idle)
  {
    hide After;
    EveryRun(sup, run);
  }
}
