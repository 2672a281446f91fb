/**
 The batching pipe to one backend connection: `Push`, `msgPipe.pipe` and `reNewNc` of
 proxy/proto/pipe.go over the Write, Flush and Read of proxy/proto/redis/node_conn.go, as a
 transition system. Pushers and the pipe's own goroutine interleave step by step; every
 write, flush and read may fail. The pipe stays open.
 */
module NodePipe {
  import opened Common

  /** One push of a message; pushing a reused message again is a new one. */
  type Msg = nat

  const PIPE_MAX_COUNT := 32
  const INPUT_CAP := PIPE_MAX_COUNT * PIPE_MAX_COUNT

  /** Where the goroutine stands. */
  datatype Phase =
    | Filling               // in the inner loop
    | Flushing              // behind it
    | Reading(next: nat)    // reading the reply of batch[next]
    | Ending(at: nat, failed: bool)  // at label MEND, completing batch[at]
    | Blocked               // in the receive that waits for a message

  /** `answer` is the request whose reply the message holds. */
  datatype Completion = Completion(m: Msg, failed: bool, answer: Option<Msg>)

  datatype State = State(
    pushed: seq<Msg>,        // every push, each with its Add
    accepted: seq<Msg>,      // those that found room in the channel
    queue: seq<Msg>,         // the channel
    hand: Option<Msg>,       // the goroutine's m
    batch: seq<Msg>,
    phase: Phase,
    written: seq<Msg>,       // handed to a connection, in order
    outstanding: seq<Msg>,   // requests the current connection has not answered
    replies: map<Msg, Msg>,  // reply slots
    done: seq<Completion>)   // every Done

  datatype Event =
    | Push(m: Msg) | Take | Idle | Write(wrote: bool) | Flush(flushed: bool) | Read(read: bool)
    | Finish | EndBatch | Receive

  const INIT := State([], [], [], None, [], Filling, [], [], map[], [])

  /** Requests the backend is asked at all: the others are neither written nor read. */
  type Supported = Msg -> bool

  // ---------------------------------------------------------------- steps

  /** Any goroutine pushes: into the channel if it has room, else straight to an error. */
  function OnPush(s: State, m: Msg): Option<State> {
    if m in s.pushed then None
    else if |s.queue| < INPUT_CAP then
      Some(s.(pushed := s.pushed + [m], accepted := s.accepted + [m], queue := s.queue + [m]))
    else
      Some(s.(pushed := s.pushed + [m], done := s.done + [Completion(m, true, None)]))
  }

  /** The receive of the inner loop, which does not wait. */
  function OnTake(s: State): Option<State> {
    if s.phase == Filling && s.hand.None? && s.queue != [] then
      Some(s.(hand := Some(s.queue[0]), queue := s.queue[1..]))
    else None
  }

  function OnIdle(s: State): Option<State> {
    if s.phase == Filling && s.hand.None? && s.queue == [] then Some(s.(phase := Flushing)) else None
  }

  function OnWrite(sup: Supported, s: State, ok: bool): Option<State> {
    if s.phase == Filling && s.hand.Some? then
      var m := s.hand.value;
      var batch := s.batch + [m];
      Some(s.(hand := None, batch := batch, written := s.written + [m],
              outstanding := if ok && sup(m) then s.outstanding + [m] else s.outstanding,
              phase := if !ok then Ending(0, true) else if |batch| >= PIPE_MAX_COUNT then Flushing else Filling))
    else None
  }

  function OnFlush(s: State, ok: bool): Option<State> {
    if s.phase != Flushing then None
    else if s.batch == [] then Some(s.(phase := Ending(0, false)))
    else Some(s.(phase := if ok then Reading(0) else Ending(0, true)))
  }

  /** The backend answers each connection in the order of its requests. */
  function OnRead(sup: Supported, s: State, ok: bool): Option<State> {
    if !s.phase.Reading? || s.phase.next >= |s.batch| then None
    else
      var m := s.batch[s.phase.next];
      var onward := if s.phase.next + 1 < |s.batch| then Reading(s.phase.next + 1) else Ending(0, false);
      if !sup(m) then Some(s.(phase := onward))
      else if !ok then Some(s.(phase := Ending(0, true)))
      else if s.outstanding == [] then None
      else Some(s.(phase := onward, replies := s.replies[m := s.outstanding[0]], outstanding := s.outstanding[1..]))
  }

  function OnFinish(s: State): Option<State> {
    if s.phase.Ending? && s.phase.at < |s.batch| then
      var m := s.batch[s.phase.at];
      var answer := if m in s.replies then Some(s.replies[m]) else None;
      Some(s.(done := s.done + [Completion(m, s.phase.failed, answer)], phase := s.phase.(at := s.phase.at + 1)))
    else None
  }

  /** After an error the connection is replaced. */
  function OnEndBatch(s: State): Option<State> {
    if s.phase.Ending? && s.phase.at >= |s.batch| then
      Some(s.(batch := [], phase := Blocked, outstanding := if s.phase.failed then [] else s.outstanding))
    else None
  }

  /** The receive that waits. */
  function OnReceive(s: State): Option<State> {
    if s.phase == Blocked && s.queue != [] then
      Some(s.(hand := Some(s.queue[0]), queue := s.queue[1..], phase := Filling))
    else None
  }

  /** One step; `None` when the event cannot happen. */
  function Next(sup: Supported, s: State, e: Event): Option<State> {
    match e
    case Push(m) => OnPush(s, m)
    case Take => OnTake(s)
    case Idle => OnIdle(s)
    case Write(ok) => OnWrite(sup, s, ok)
    case Flush(ok) => OnFlush(s, ok)
    case Read(ok) => OnRead(sup, s, ok)
    case Finish => OnFinish(s)
    case EndBatch => OnEndBatch(s)
    case Receive => OnReceive(s)
  }

  // ---------------------------------------------------------------- the invariant

  function InHand(s: State): seq<Msg> { if s.hand.Some? then [s.hand.value] else [] }

  /** The part of the batch not yet completed. */
  function Pending(s: State): seq<Msg> {
    if s.phase.Ending? && s.phase.at <= |s.batch| then s.batch[s.phase.at..] else s.batch
  }

  function DoneMsgs(done: seq<Completion>): (ms: seq<Msg>)
    ensures |ms| == |done| && forall i :: 0 <= i < |done| ==> ms[i] == done[i].m
  {
    seq(|done|, i requires 0 <= i < |done| => done[i].m)
  }

  function Asked(sup: Supported, ms: seq<Msg>): seq<Msg> {
    if ms == [] then []
    else Asked(sup, ms[..|ms| - 1]) + if sup(ms[|ms| - 1]) then [ms[|ms| - 1]] else []
  }

  /** Every pushed message is in exactly one place. */
  ghost predicate OnePlace(s: State) {
    && Distinct(s.pushed)
    && multiset(s.pushed) == Places(s)
  }

  /** Messages go to the backend in the order they were accepted. */
  ghost predicate InOrder(s: State) {
    s.accepted == s.written + InHand(s) + s.queue
  }

  ghost predicate Bounded(s: State) {
    && |s.batch| <= PIPE_MAX_COUNT && |s.queue| <= INPUT_CAP
    && (s.phase == Filling ==> |s.batch| < PIPE_MAX_COUNT)
    && (s.phase.Reading? ==> s.phase.next < |s.batch|)
    && (s.phase.Ending? ==> s.phase.at <= |s.batch|)
    && (s.hand.Some? ==> s.phase == Filling)
    && (s.phase == Blocked ==> s.batch == [])
  }

  /** Messages whose reply, if they asked for one, has been read. */
  ghost predicate Answered(sup: Supported, s: State, ms: seq<Msg>) {
    forall i :: 0 <= i < |ms| && sup(ms[i]) ==> ms[i] in s.replies && s.replies[ms[i]] == ms[i]
  }

  /** The connection owes exactly the replies the batch still waits for. */
  ghost predicate Matched(sup: Supported, s: State) {
    match s.phase
    case Filling => s.outstanding == Asked(sup, s.batch)
    case Flushing => s.outstanding == Asked(sup, s.batch)
    case Reading(i) => i <= |s.batch| && s.outstanding == Asked(sup, s.batch[i..]) && Answered(sup, s, s.batch[..i])
    case Ending(_, failed) => failed || (s.outstanding == [] && Answered(sup, s, s.batch))
    case Blocked => s.outstanding == []
  }

  /** A message that ends without error holds the reply to its own request. */
  ghost predicate OwnReplies(sup: Supported, done: seq<Completion>) {
    forall i :: 0 <= i < |done| && !done[i].failed && sup(done[i].m) ==> done[i].answer == Some(done[i].m)
  }

  ghost predicate Inv(sup: Supported, s: State) {
    OnePlace(s) && InOrder(s) && Bounded(s) && Matched(sup, s) && OwnReplies(sup, s.done)
  }

  // ---------------------------------------------------------------- every step keeps it

  lemma {:induction false} AskedSnoc(sup: Supported, ms: seq<Msg>, m: Msg)
    ensures Asked(sup, ms + [m]) == Asked(sup, ms) + if sup(m) then [m] else []
  {
    assert (ms + [m])[..|ms|] == ms;
  }

  lemma {:induction false} AskedCons(sup: Supported, m: Msg, ms: seq<Msg>)
    ensures Asked(sup, [m] + ms) == (if sup(m) then [m] else []) + Asked(sup, ms)
  {
    if ms == [] {
      AskedSnoc(sup, [], m);
      assert [] + [m] == [m] + ms;
    } else {
      var init, last := ms[..|ms| - 1], ms[|ms| - 1];
      assert [m] + ms == ([m] + init) + [last] && ms == init + [last];
      AskedSnoc(sup, [m] + init, last);
      AskedCons(sup, m, init);
    }
  }

  lemma DoneSnoc(done: seq<Completion>, c: Completion)
    ensures DoneMsgs(done + [c]) == DoneMsgs(done) + [c.m]
  {
  }

  /** All places a message can be, as one multiset. */
  ghost function Places(s: State): multiset<Msg> {
    multiset(s.queue) + multiset(InHand(s)) + multiset(Pending(s)) + multiset(DoneMsgs(s.done))
  }

  lemma {:induction false} PushPlaces(s: State, m: Msg)
    requires OnPush(s, m).Some?
    ensures Places(OnPush(s, m).value) == Places(s) + multiset{m}
  {
    var t := OnPush(s, m).value;
    DoneSnoc(s.done, Completion(m, true, None));
    assert Pending(t) == Pending(s) && InHand(t) == InHand(s);
  }

  lemma {:induction false} TakePlaces(s: State)
    requires OnTake(s).Some?
    ensures Places(OnTake(s).value) == Places(s)
  {
    assert s.queue == [s.queue[0]] + s.queue[1..];
  }

  lemma {:induction false} ReceivePlaces(s: State)
    requires Bounded(s) && OnReceive(s).Some?
    ensures Places(OnReceive(s).value) == Places(s)
  {
    assert s.queue == [s.queue[0]] + s.queue[1..];
  }

  lemma {:induction false} WritePlaces(sup: Supported, s: State, ok: bool)
    requires OnWrite(sup, s, ok).Some?
    ensures Places(OnWrite(sup, s, ok).value) == Places(s)
  {
    assert Pending(OnWrite(sup, s, ok).value) == Pending(s) + [s.hand.value];
  }

  lemma {:induction false} FinishPlaces(s: State)
    requires OnFinish(s).Some?
    ensures Places(OnFinish(s).value) == Places(s)
  {
    var t := OnFinish(s).value;
    DoneSnoc(s.done, t.done[|s.done|]);
    assert Pending(s) == [s.batch[s.phase.at]] + Pending(t);
  }

  /** Steps that move no message. */
  lemma SamePlaces(s: State, t: State)
    requires t.queue == s.queue && t.hand == s.hand && t.done == s.done && Pending(t) == Pending(s)
    ensures Places(t) == Places(s)
  {
  }

  lemma {:induction false} PhasePlaces(sup: Supported, s: State, e: Event)
    requires Bounded(s) && (e.Idle? || e.Flush? || e.Read? || e.EndBatch?) && Next(sup, s, e).Some?
    ensures Places(Next(sup, s, e).value) == Places(s)
  {
    hide Places;
    var t := Next(sup, s, e).value;
    assert Pending(t) == Pending(s);
    SamePlaces(s, t);
  }

  /** Steps of the goroutine move messages around; only a push adds one. */
  lemma {:induction false} StepOnePlace(sup: Supported, s: State, e: Event)
    requires OnePlace(s) && Bounded(s) && Next(sup, s, e).Some?
    ensures OnePlace(Next(sup, s, e).value)
  {
    StepPushes(sup, s, e);
    hide Bounded, Places, OnPush, OnTake, OnReceive, OnWrite, OnFinish, OnIdle, OnFlush, OnRead, OnEndBatch;
    match e
    case Push(m) => PushPlaces(s, m);
    case Take => TakePlaces(s);
    case Receive => ReceivePlaces(s);
    case Write(ok) => WritePlaces(sup, s, ok);
    case Finish => FinishPlaces(s);
    case _ => PhasePlaces(sup, s, e);
  }

  lemma StepPushes(sup: Supported, s: State, e: Event)
    requires Next(sup, s, e).Some?
    ensures e.Push? ==> e.m !in s.pushed && Next(sup, s, e).value.pushed == s.pushed + [e.m]
    ensures !e.Push? ==> Next(sup, s, e).value.pushed == s.pushed
  {
  }

  lemma {:induction false} TakeInOrder(s: State, t: State)
    requires InOrder(s) && s.hand.None? && s.queue != []
    requires t.accepted == s.accepted && t.written == s.written && t.hand == Some(s.queue[0]) && t.queue == s.queue[1..]
    ensures InOrder(t)
  {
    assert s.queue == [s.queue[0]] + s.queue[1..];
  }

  lemma {:induction false} PushInOrder(s: State, m: Msg)
    requires InOrder(s) && OnPush(s, m).Some?
    ensures InOrder(OnPush(s, m).value)
  {
    assert s.written + InHand(s) + (s.queue + [m]) == (s.written + InHand(s) + s.queue) + [m];
  }

  lemma {:induction false} StepInOrder(sup: Supported, s: State, e: Event)
    requires InOrder(s) && Bounded(s) && Next(sup, s, e).Some?
    ensures InOrder(Next(sup, s, e).value)
  {
    match e
    case Take => TakeInOrder(s, OnTake(s).value);
    case Receive => TakeInOrder(s, OnReceive(s).value);
    case Push(m) => PushInOrder(s, m);
    case _ =>
  }

  lemma StepBounded(sup: Supported, s: State, e: Event)
    requires Bounded(s) && Next(sup, s, e).Some?
    ensures Bounded(Next(sup, s, e).value)
  {
  }

  /** Batch members are distinct and none has been completed. */
  lemma {:induction false} BatchFresh(s: State)
    requires OnePlace(s) && Bounded(s) && !s.phase.Ending?
    ensures Distinct(s.batch)
  {
    forall i, j | 0 <= i < j < |s.batch|
      ensures s.batch[i] != s.batch[j]
    {
      if s.batch[i] == s.batch[j] {
        TwiceInMultiset(s.batch, i, j);
        assert multiset(s.pushed)[s.batch[i]] >= 2;
        OnceInDistinct(s.pushed, s.batch[i]);
      }
    }
  }

  lemma {:induction false} TwiceInMultiset(ms: seq<Msg>, i: nat, j: nat)
    requires i < j < |ms| && ms[i] == ms[j]
    ensures multiset(ms)[ms[i]] >= 2
  {
    assert ms == ms[..i] + [ms[i]] + ms[i + 1..j] + [ms[j]] + ms[j + 1..];
  }

  lemma {:induction false} OnceInDistinct(ms: seq<Msg>, m: Msg)
    requires Distinct(ms)
    ensures multiset(ms)[m] <= 1
  {
    if ms != [] {
      var init, last := ms[..|ms| - 1], ms[|ms| - 1];
      assert ms == init + [last];
      OnceInDistinct(init, m);
      if last == m {
        assert m !in init;
      }
    }
  }

  lemma {:induction false} StepMatched(sup: Supported, s: State, e: Event)
    requires OnePlace(s) && Bounded(s) && Matched(sup, s) && Next(sup, s, e).Some?
    ensures Matched(sup, Next(sup, s, e).value)
  {
    hide Asked, Places;
    match e
    case Write(ok) => AskedSnoc(sup, s.batch, s.hand.value);
    case Flush(ok) => FlushMatched(sup, s, ok);
    case Read(ok) => ReadMatched(sup, s, ok);
    case Receive => AskedNone(sup);
    case _ =>
  }

  lemma AskedNone(sup: Supported)
    ensures Asked(sup, []) == []
  {
  }

  lemma {:induction false} FlushMatched(sup: Supported, s: State, ok: bool)
    requires Matched(sup, s) && OnFlush(s, ok).Some?
    ensures Matched(sup, OnFlush(s, ok).value)
  {
    assert s.batch[0..] == s.batch && s.batch[..0] == [];
  }

  lemma {:induction false} ReadMatched(sup: Supported, s: State, ok: bool)
    requires OnePlace(s) && Bounded(s) && Matched(sup, s) && OnRead(sup, s, ok).Some?
    ensures Matched(sup, OnRead(sup, s, ok).value)
  {
    hide OnePlace, Bounded, Asked, Answered, Distinct;
    BatchFresh(s);
    var t := OnRead(sup, s, ok).value;
    var i := s.phase.next;
    AskedFrom(sup, s.batch, i);
    if sup(s.batch[i]) {
      HeadIs(s.outstanding, s.batch[i], Asked(sup, s.batch[i + 1..]));
    } else {
      NoHead(s.outstanding, Asked(sup, s.batch[i + 1..]));
    }
    if !sup(s.batch[i]) || ok {
      AnsweredMore(sup, s, t, i);
    }
  }

  lemma HeadIs(all: seq<Msg>, m: Msg, rest: seq<Msg>)
    requires all == [m] + rest
    ensures all != [] && all[0] == m && all[1..] == rest
  {
  }

  lemma NoHead(all: seq<Msg>, rest: seq<Msg>)
    requires all == [] + rest
    ensures all == rest
  {
  }

  lemma {:induction false} AskedFrom(sup: Supported, ms: seq<Msg>, i: nat)
    requires i < |ms|
    ensures Asked(sup, ms[i..]) == (if sup(ms[i]) then [ms[i]] else []) + Asked(sup, ms[i + 1..])
    ensures i + 1 == |ms| ==> Asked(sup, ms[i + 1..]) == []
  {
    assert ms[i..] == [ms[i]] + ms[i + 1..];
    AskedCons(sup, ms[i], ms[i + 1..]);
  }

  /** Reading the reply of batch[i] leaves those before it alone. */
  lemma {:induction false} AnsweredMore(sup: Supported, s: State, t: State, i: nat)
    requires i < |s.batch| && t.batch == s.batch && Distinct(s.batch) && Answered(sup, s, s.batch[..i])
    requires if sup(s.batch[i]) then t.replies == s.replies[s.batch[i] := s.batch[i]] else t.replies == s.replies
    ensures Answered(sup, t, s.batch[..i + 1])
    ensures i + 1 == |s.batch| ==> Answered(sup, t, s.batch)
  {
    forall j | 0 <= j < i + 1 && sup(s.batch[j])
      ensures s.batch[j] in t.replies && t.replies[s.batch[j]] == s.batch[j]
    {
      if j < i {
        assert s.batch[..i][j] == s.batch[j];
      }
    }
  }

  lemma StepOwnReplies(sup: Supported, s: State, e: Event)
    requires Bounded(s) && Matched(sup, s) && OwnReplies(sup, s.done) && Next(sup, s, e).Some?
    ensures OwnReplies(sup, Next(sup, s, e).value.done)
  {
  }

  lemma {:induction false} StepKeepsInv(sup: Supported, s: State, e: Event)
    requires Inv(sup, s) && Next(sup, s, e).Some?
    ensures Inv(sup, Next(sup, s, e).value)
  {
    StepOnePlace(sup, s, e);
    StepInOrder(sup, s, e);
    StepBounded(sup, s, e);
    StepMatched(sup, s, e);
    StepOwnReplies(sup, s, e);
  }

  // ---------------------------------------------------------------- whole runs

  /** The state after a run, if all its events can happen. */
  function After(sup: Supported, run: seq<Event>): Option<State> {
    if run == [] then Some(INIT)
    else
      match After(sup, run[..|run| - 1])
      case None => None
      case Some(s) => Next(sup, s, run[|run| - 1])
  }

  lemma {:induction false} EveryRun(sup: Supported, run: seq<Event>)
    requires After(sup, run).Some?
    ensures Inv(sup, After(sup, run).value)
  {
    if run == [] {
      assert DoneMsgs([]) == [];
    } else {
      EveryRun(sup, run[..|run| - 1]);
      StepKeepsInv(sup, After(sup, run[..|run| - 1]).value, run[|run| - 1]);
    }
  }

  /** How often a message has been completed. */
  function Dones(s: State, m: Msg): nat { multiset(DoneMsgs(s.done))[m] }

  /** How often it sits in the channel, in the goroutine's hand or in the unfinished batch. */
  function Inside(s: State, m: Msg): nat {
    multiset(s.queue)[m] + multiset(InHand(s))[m] + multiset(Pending(s))[m]
  }

  /**
   In every run, at every point: each pushed message is in exactly one place or has had
   exactly one Done; batches hold at most 32; requests reach the backend in push order; and
   what was completed without an error carries the reply to its own request.
   */
  lemma {:induction false} NothingLostNothingDoubled(sup: Supported, run: seq<Event>)
    requires After(sup, run).Some?
    ensures
      var s := After(sup, run).value;
      && (forall m :: m in s.pushed ==> Inside(s, m) + Dones(s, m) == 1)
      && (forall m :: m !in s.pushed ==> Inside(s, m) + Dones(s, m) == 0)
      && |s.batch| <= PIPE_MAX_COUNT
      && s.written <= s.accepted
      && OwnReplies(sup, s.done)
  {
    EveryRun(sup, run);
    var s := After(sup, run).value;
    forall m
      ensures Inside(s, m) + Dones(s, m) == multiset(s.pushed)[m] == if m in s.pushed then 1 else 0
    {
      OnceInDistinct(s.pushed, m);
    }
  }

  // ---------------------------------------------------------------- the pipe drains

  function Cost(s: State): nat {
    var b := |s.batch|;
    20 * |s.queue| + (if s.hand.Some? then 9 else 0) +
    match s.phase
    case Filling => 4 * b + 6
    case Flushing => 4 * b + 5
    case Reading(i) => 2 * b + (if i <= b then b - i else 0) + 4
    case Ending(i, _) => (if i <= b then b - i else 0) + 3
    case Blocked => 2
  }

  /** Nothing left to do: waiting, with an empty channel. */
  predicate Resting(s: State) { s.phase == Blocked && s.queue == [] }

  /** Short of rest some step of the goroutine is always possible, whatever fails. */
  function OwnStep(sup: Supported, s: State, ok: bool): Event {
    match s.phase
    case Filling => if s.hand.Some? then Write(ok) else if s.queue != [] then Take else Idle
    case Flushing => Flush(ok)
    case Reading(_) => Read(ok)
    case Ending(i, _) => if i < |s.batch| then Finish else EndBatch
    case Blocked => Receive
  }

  lemma {:induction false} OwnStepProgresses(sup: Supported, s: State, ok: bool)
    requires Inv(sup, s) && !Resting(s)
    ensures Next(sup, s, OwnStep(sup, s, ok)).Some?
    ensures Cost(Next(sup, s, OwnStep(sup, s, ok)).value) < Cost(s)
  {
    hide Inv;
    InvBounds(sup, s);
    if s.phase.Reading? {
      ReplyIsDue(sup, s);
    }
  }

  lemma InvBounds(sup: Supported, s: State)
    requires Inv(sup, s)
    ensures Bounded(s)
  {
  }

  /** While the batch waits for a reply, the backend owes one. */
  lemma {:induction false} ReplyIsDue(sup: Supported, s: State)
    requires Inv(sup, s) && s.phase.Reading?
    ensures s.phase.next < |s.batch| && (sup(s.batch[s.phase.next]) ==> s.outstanding != [])
  {
    hide OnePlace, InOrder, OwnReplies, Answered, Asked;
    AskedFrom(sup, s.batch, s.phase.next);
  }

  /** The state after letting the goroutine run `n` steps, `oks` deciding what succeeds. */
  function Work(sup: Supported, s: State, n: nat, oks: nat -> bool): State
    decreases n
  {
    if n == 0 || Resting(s) then s
    else match Next(sup, s, OwnStep(sup, s, oks(n)))
      case None => s
      case Some(t) => Work(sup, t, n - 1, oks)
  }

  lemma {:induction false} AllDoneAtRest(sup: Supported, s: State, m: Msg)
    requires Inv(sup, s) && Resting(s) && m in s.pushed
    ensures Dones(s, m) == 1
  {
    hide InOrder, Matched, OwnReplies;
    OnceInDistinct(s.pushed, m);
    assert Pending(s) == [] && InHand(s) == [];
  }

  /** Left alone, the pipe comes to rest from any reachable state, and then every push has had its Done. */
  lemma {:induction false} PipeDrains(sup: Supported, s: State, n: nat, oks: nat -> bool)
    requires Inv(sup, s) && n >= Cost(s)
    ensures
      var t := Work(sup, s, n, oks);
      Inv(sup, t) && Resting(t) && t.pushed == s.pushed && forall m :: m in t.pushed ==> Dones(t, m) == 1
    decreases n
  {
    hide Inv, Next, OwnStep, Dones;
    if Resting(s) {
      forall m | m in s.pushed
        ensures Dones(s, m) == 1
      {
        AllDoneAtRest(sup, s, m);
      }
    } else {
      CostPositive(s);
      var e := OwnStep(sup, s, oks(n));
      OwnStepProgresses(sup, s, oks(n));
      StepKeepsInv(sup, s, e);
      OwnStepPushes(sup, s, oks(n));
      hide Cost;
      PipeDrains(sup, Next(sup, s, e).value, n - 1, oks);
    }
  }

  lemma CostPositive(s: State)
    ensures Cost(s) > 0
  {
  }

  lemma OwnStepPushes(sup: Supported, s: State, ok: bool)
    requires Next(sup, s, OwnStep(sup, s, ok)).Some?
    ensures Next(sup, s, OwnStep(sup, s, ok)).value.pushed == s.pushed
  {
  }
}
