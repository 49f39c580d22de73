/** The queued sender and its shutdown: producers, queue consumers that retry,
    and the shutdown sequence of the exporter, in every interleaving.

    The bounded queue is taken at its contract: Produce refuses when full or
    stopped; Stop refuses further items, lets the consumers drain the queue and
    waits until all of them have left. */
module QueueShutdown {

  type Req = nat
  type Consumer = nat

  /** A consumer is waiting for an item, in an attempt, backing off (and was the
      stop channel already closed when that began?), or gone. */
  datatype Work = Idle | Sending(r: Req) | Waiting(r: Req, stopped: bool) | Gone

  /** How far Shutdown has come: stop channel closed, queue told to stop, queue
      drained, wrapped exporter shut down. */
  datatype Phase = Up | RetryStopped | Stopping | Drained | Down

  datatype State = State(
    capacity: nat,
    queue: seq<Req>,
    accepted: set<Req>,
    work: map<Consumer, Work>,
    phase: Phase,
    before: map<Req, nat>,   // attempts begun before the stop channel was closed
    after: map<Req, nat>,    // attempts begun after
    shutdowns: nat)          // runs of the wrapped exporter's shutdown

  datatype Action =
    | Produce(r: Req)
    | Take(w: Consumer)
    | Finish(w: Consumer)        // delivered, dropped, or given up
    | BackOff(w: Consumer)
    | Timer(w: Consumer)         // the delay has passed: try again
    | WakeUp(w: Consumer)        // cancelled, or interrupted by the stop channel
    | Leave(w: Consumer)
    | CloseStop
    | StopQueue
    | QueueStopped
    | ShutExporter
    | ShutdownAgain              // a repeated call

  function Init(capacity: nat, consumers: nat): State {
    State(capacity, [], {}, AllIdle(consumers), Up, map[], map[], 0)
  }

  function AllIdle(n: nat): (m: map<Consumer, Work>)
    ensures forall w :: w in m ==> m[w] == Idle
    ensures n > 0 <==> 0 in m
  {
    if n == 0 then map[] else AllIdle(n - 1)[n - 1 := Idle]
  }

  function Count(m: map<Req, nat>, r: Req): nat {
    if r in m then m[r] else 0
  }

  predicate Closed(s: State) {
    s.phase != Up
  }

  predicate Refusing(s: State) {
    s.phase in {Stopping, Drained, Down}
  }

  /** A delay is positive, so a back-off begun after the stop channel was closed
      ends by interruption, never by the timer. */
  predicate Enabled(s: State, a: Action) {
    match a
    case Produce(r) => r !in s.accepted && !Refusing(s) && |s.queue| < s.capacity
    case Take(w) => w in s.work && s.work[w] == Idle && s.queue != []
    case Finish(w) => w in s.work && s.work[w].Sending?
    case BackOff(w) => w in s.work && s.work[w].Sending?
    case Timer(w) => w in s.work && s.work[w].Waiting? && !s.work[w].stopped
    case WakeUp(w) => w in s.work && s.work[w].Waiting?
    case Leave(w) => w in s.work && s.work[w] == Idle && Refusing(s) && s.queue == []
    case CloseStop => s.phase == Up
    case StopQueue => s.phase == RetryStopped
    case QueueStopped => s.phase == Stopping && forall w :: w in s.work ==> s.work[w] == Gone
    case ShutExporter => s.phase == Drained
    case ShutdownAgain => s.phase != Up
  }

  /** An attempt at `r` begins. */
  function Try(s: State, w: Consumer, r: Req): State {
    var t := s.(work := s.work[w := Sending(r)]);
    if Closed(s) then t.(after := s.after[r := Count(s.after, r) + 1])
    else t.(before := s.before[r := Count(s.before, r) + 1])
  }

  function Do(s: State, a: Action): State
    requires Enabled(s, a)
  {
    match a
    case Produce(r) => s.(queue := s.queue + [r], accepted := s.accepted + {r})
    case Take(w) => Try(s.(queue := s.queue[1..]), w, s.queue[0])
    case Finish(w) => s.(work := s.work[w := Idle])
    case BackOff(w) => s.(work := s.work[w := Waiting(s.work[w].r, Closed(s))])
    case Timer(w) => Try(s, w, s.work[w].r)
    case WakeUp(w) => s.(work := s.work[w := Idle])
    case Leave(w) => s.(work := s.work[w := Gone])
    case CloseStop => s.(phase := RetryStopped)
    case StopQueue => s.(phase := Stopping)
    case QueueStopped => s.(phase := Drained)
    case ShutExporter => s.(phase := Down, shutdowns := s.shutdowns + 1)
    case ShutdownAgain => s
  }

  /** The actions can be taken one after the other. */
  predicate CanRun(s: State, acts: seq<Action>)
    decreases |acts|
  {
    acts == [] || (Enabled(s, acts[0]) && CanRun(Do(s, acts[0]), acts[1..]))
  }

  function After(s: State, acts: seq<Action>): State
    requires CanRun(s, acts)
    decreases |acts|
  {
    if acts == [] then s else After(Do(s, acts[0]), acts[1..])
  }

  /** A run goes on with one more action. */
  lemma {:induction false} Then(s: State, acts: seq<Action>, a: Action)
    requires CanRun(s, acts) && Enabled(After(s, acts), a)
    ensures CanRun(s, acts + [a]) && After(s, acts + [a]) == Do(After(s, acts), a)
    decreases |acts|
  {
    if acts == [] {
      assert [a][1..] == [] && acts + [a] == [a];
    } else {
      Then(Do(s, acts[0]), acts[1..], a);
      assert (acts + [a])[1..] == acts[1..] + [a];
    }
  }

  // --------------------------------------------------------------- invariants

  ghost predicate Busy(s: State, w: Consumer, r: Req) {
    w in s.work && (s.work[w] == Sending(r) || (s.work[w].Waiting? && s.work[w].r == r))
  }

  /** A request is in the queue, or it has been tried. */
  ghost predicate NothingForgotten(s: State) {
    forall r :: r in s.accepted ==> r in s.queue || Count(s.before, r) + Count(s.after, r) >= 1
  }

  /** Requests queue once, and untried. */
  ghost predicate CleanQueue(s: State) {
    && (forall i, j :: 0 <= i < j < |s.queue| ==> s.queue[i] != s.queue[j])
    && (forall r :: r in s.queue ==> r in s.accepted && Count(s.before, r) == 0 && Count(s.after, r) == 0)
  }

  /** A request is in one place at a time. */
  ghost predicate OnePlace(s: State) {
    && (forall w, r :: Busy(s, w, r) ==> r in s.accepted && r !in s.queue)
    && (forall v, w, r :: Busy(s, v, r) && Busy(s, w, r) ==> v == w)
  }

  /** Attempts after the stop channel was closed, at most one for each request:
      whoever still waits with a running timer has had none. */
  ghost predicate OneMore(s: State) {
    && (!Closed(s) ==> s.after == map[])
    && (forall w :: w in s.work && s.work[w].Waiting? && !s.work[w].stopped ==> Count(s.after, s.work[w].r) == 0)
    && (forall r :: Count(s.after, r) <= 1)
    && (forall r :: r !in s.accepted ==> Count(s.after, r) == 0 && Count(s.before, r) == 0)
  }

  /** A consumer leaves only an empty, stopped queue. */
  ghost predicate LeftEmpty(s: State) {
    && ((exists w :: w in s.work && s.work[w] == Gone) ==> Refusing(s) && s.queue == [])
    && (s.phase in {Drained, Down} ==> forall w :: w in s.work ==> s.work[w] == Gone)
    && s.shutdowns == if s.phase == Down then 1 else 0
  }

  ghost predicate Inv(s: State) {
    NothingForgotten(s) && CleanQueue(s) && OnePlace(s) && OneMore(s) && LeftEmpty(s)
  }

  lemma ForgetsNothing(s: State, a: Action)
    requires Inv(s) && Enabled(s, a)
    ensures NothingForgotten(Do(s, a))
  {
    if a.Take? {
      assert s.queue == [s.queue[0]] + s.queue[1..];
    }
  }

  lemma TakeSplits(s: State)
    requires CleanQueue(s) && s.queue != []
    ensures forall r :: r in s.queue <==> r == s.queue[0] || r in s.queue[1..]
    ensures s.queue[0] !in s.queue[1..]
  {
    assert s.queue == [s.queue[0]] + s.queue[1..];
  }

  lemma KeepsQueueClean(s: State, a: Action)
    requires Inv(s) && Enabled(s, a)
    ensures CleanQueue(Do(s, a))
  {
    if a.Take? {
      TakeSplits(s);
    } else if a.Timer? {
      assert Busy(s, a.w, s.work[a.w].r);
    }
  }

  /** Whoever is busy after a step was busy before, or has just taken the head. */
  lemma WasBusy(s: State, a: Action, w: Consumer, r: Req)
    requires Enabled(s, a) && Busy(Do(s, a), w, r)
    ensures Busy(s, w, r) || (a == Take(w) && r == s.queue[0])
  {
  }

  lemma KeepsOnePlace(s: State, a: Action)
    requires Inv(s) && Enabled(s, a)
    ensures OnePlace(Do(s, a))
  {
    var t := Do(s, a);
    if a.Take? {
      TakeSplits(s);
    }
    forall w, r | Busy(t, w, r)
      ensures r in t.accepted && r !in t.queue
    {
      WasBusy(s, a, w, r);
    }
    forall v, w, r | Busy(t, v, r) && Busy(t, w, r)
      ensures v == w
    {
      WasBusy(s, a, v, r);
      WasBusy(s, a, w, r);
    }
  }

  lemma KeepsOneMore(s: State, a: Action)
    requires Inv(s) && Enabled(s, a)
    ensures OneMore(Do(s, a))
  {
    var t := Do(s, a);
    if a.Take? || a.Timer? {
      var r := if a.Take? then s.queue[0] else s.work[a.w].r;
      assert r in s.accepted by {
        if a.Timer? {
          assert Busy(s, a.w, r);
        }
      }
      assert Count(s.after, r) == 0;
      assert forall x :: Count(t.after, x) == if x == r && Closed(s) then 1 else Count(s.after, x);
      forall w | w in t.work && t.work[w].Waiting? && !t.work[w].stopped
        ensures Count(t.after, t.work[w].r) == 0
      {
        assert w != a.w && Busy(s, w, t.work[w].r);
        if a.Timer? {
          assert Busy(s, a.w, r);
        }
      }
    }
  }

  lemma StaysLeftEmpty(s: State, a: Action)
    requires Inv(s) && Enabled(s, a)
    ensures LeftEmpty(Do(s, a))
  {
    var t := Do(s, a);
    if w :| w in t.work && t.work[w] == Gone && !a.Leave? {
      assert w in s.work && s.work[w] == Gone;
    }
  }

  lemma {:induction false} RunInv(s: State, acts: seq<Action>)
    requires Inv(s) && CanRun(s, acts)
    ensures Inv(After(s, acts)) && After(s, acts).work.Keys == s.work.Keys
    decreases |acts|
  {
    if acts != [] {
      ForgetsNothing(s, acts[0]);
      KeepsQueueClean(s, acts[0]);
      KeepsOnePlace(s, acts[0]);
      KeepsOneMore(s, acts[0]);
      StaysLeftEmpty(s, acts[0]);
      RunInv(Do(s, acts[0]), acts[1..]);
    }
  }

  // ------------------------------------------------------- what callers rely on

  /** When the wrapped exporter's shutdown runs, or has run, it has run once, no
      consumer is at work any more, and every accepted request was tried. */
  ghost predicate OrderlyDown(s: State) {
    && s.shutdowns <= 1
    && (s.phase in {Drained, Down} ==>
          && (forall w :: w in s.work ==> s.work[w] == Gone)
          && (forall r :: r in s.accepted ==> Count(s.before, r) + Count(s.after, r) >= 1))
  }

  ghost predicate AlwaysOrderly(capacity: nat, consumers: nat) {
    forall acts :: CanRun(Init(capacity, consumers), acts) ==> OrderlyDown(After(Init(capacity, consumers), acts))
  }

  lemma OrderlyRun(capacity: nat, consumers: nat, acts: seq<Action>)
    requires consumers > 0 && CanRun(Init(capacity, consumers), acts)
    ensures OrderlyDown(After(Init(capacity, consumers), acts))
  {
    var s := After(Init(capacity, consumers), acts);
    RunInv(Init(capacity, consumers), acts);
    assert 0 in s.work.Keys;
  }

  /** The order holds in all runs exactly when at least one consumer was started:
      without one, as after a failed or missing Start, an accepted request is
      shut down over. */
  lemma OrderlyIffConsumed(capacity: nat, consumers: nat)
    requires capacity > 0
    ensures AlwaysOrderly(capacity, consumers) <==> consumers > 0
  {
    if consumers > 0 {
      forall acts | CanRun(Init(capacity, consumers), acts)
        ensures OrderlyDown(After(Init(capacity, consumers), acts))
      {
        OrderlyRun(capacity, consumers, acts);
      }
    } else {
      LostRequest(capacity);
    }
  }

  lemma LostRequest(capacity: nat)
    requires capacity > 0
    ensures var acts := [Produce(0), CloseStop, StopQueue, QueueStopped];
            CanRun(Init(capacity, 0), acts) && !OrderlyDown(After(Init(capacity, 0), acts))
  {
    var init := Init(capacity, 0);
    Then(init, [], Produce(0));
    Then(init, [Produce(0)], CloseStop);
    Then(init, [Produce(0), CloseStop], StopQueue);
    Then(init, [Produce(0), CloseStop, StopQueue], QueueStopped);
    var s := After(init, [Produce(0), CloseStop, StopQueue, QueueStopped]);
    assert 0 in s.accepted && Count(s.before, 0) + Count(s.after, 0) == 0;
  }

  /** In every run no request is tried more than once after the stop channel is
      closed; one that had not been tried by then is tried at most once in all,
      and by the time the queue is drained exactly once. */
  lemma TriedOnceAfterStop(capacity: nat, consumers: nat, acts: seq<Action>, r: Req)
    requires CanRun(Init(capacity, consumers), acts)
    ensures var s := After(Init(capacity, consumers), acts);
            && Count(s.after, r) <= 1
            && (consumers > 0 && s.phase in {Drained, Down} && r in s.accepted && Count(s.before, r) == 0 ==> Count(s.after, r) == 1)
  {
    RunInv(Init(capacity, consumers), acts);
    if consumers > 0 {
      OrderlyRun(capacity, consumers, acts);
    }
  }

  // ------------------------------------------------------ shutdown comes to an end

  /** How many more steps a consumer can take without a new item. */
  function Steps(x: Work): nat {
    match x
    case Gone => 0
    case Idle => 1
    case Sending(_) => 3
    case Waiting(_, stopped) => if stopped then 2 else 4
  }

  function AllSteps(work: map<Consumer, Work>, n: nat): nat {
    if n == 0 then 0 else AllSteps(work, n - 1) + if n - 1 in work then Steps(work[n - 1]) else 0
  }

  lemma {:induction false} StepsChange(work: map<Consumer, Work>, n: nat, w: Consumer, x: Work)
    requires w in work
    ensures AllSteps(work[w := x], n) == AllSteps(work, n) + if w < n then Steps(x) - Steps(work[w]) else 0
  {
    if n > 0 {
      StepsChange(work, n - 1, w, x);
    }
  }

  /** How many more steps can be taken once the queue refuses items. */
  function Bound(s: State, n: nat): nat {
    3 * |s.queue| + AllSteps(s.work, n)
    + match s.phase case Down => 0 case Drained => 1 case Stopping => 2 case RetryStopped => 3 case Up => 4
  }

  lemma StepCosts(s: State, n: nat, a: Action)
    requires Refusing(s) && Enabled(s, a) && a != ShutdownAgain && forall w :: w in s.work ==> w < n
    ensures Refusing(Do(s, a)) && Do(s, a).work.Keys == s.work.Keys
    ensures Bound(Do(s, a), n) < Bound(s, n)
  {
    var t := Do(s, a);
    if a.Take? || a.Finish? || a.BackOff? || a.Timer? || a.WakeUp? || a.Leave? {
      assert t.work == s.work[a.w := t.work[a.w]];
      StepsChange(s.work, n, a.w, t.work[a.w]);
    }
  }

  lemma SomeoneMoves(s: State)
    requires Refusing(s) && s.phase != Down
    ensures exists a :: a != ShutdownAgain && Enabled(s, a)
  {
    if s.phase == Drained {
      assert Enabled(s, ShutExporter);
    } else if w :| w in s.work && s.work[w] != Gone {
      assert Enabled(s, Take(w)) || Enabled(s, Finish(w)) || Enabled(s, WakeUp(w)) || Enabled(s, Leave(w));
    } else {
      assert Enabled(s, QueueStopped);
    }
  }

  lemma {:induction false} RefusingRunIsShort(s: State, n: nat, more: seq<Action>)
    requires Refusing(s) && (forall w :: w in s.work ==> w < n)
    requires CanRun(s, more) && ShutdownAgain !in more
    ensures Refusing(After(s, more)) && |more| <= Bound(s, n) - Bound(After(s, more), n)
    decreases |more|
  {
    if more != [] {
      StepCosts(s, n, more[0]);
      RefusingRunIsShort(Do(s, more[0]), n, more[1..]);
    }
  }

  lemma {:induction false} ConsumersBelow(n: nat)
    ensures forall w :: w in AllIdle(n) ==> w < n
  {
    if n > 0 {
      ConsumersBelow(n - 1);
    }
  }

  /** From the moment the queue is told to stop, in whatever state a run has left
      it, every way on is bounded by what is queued and under way, and a way on
      that cannot be continued has shut the wrapped exporter down, once. */
  lemma ShutdownCompletes(capacity: nat, consumers: nat, acts: seq<Action>, more: seq<Action>)
    requires CanRun(Init(capacity, consumers), acts) && Refusing(After(Init(capacity, consumers), acts))
    requires CanRun(After(Init(capacity, consumers), acts), more) && ShutdownAgain !in more
    ensures var s := After(Init(capacity, consumers), acts);
            var t := After(s, more);
            && |more| <= 3 * |s.queue| + 4 * consumers + 2
            && (t.phase == Down || exists a :: a != ShutdownAgain && Enabled(t, a))
            && (t.phase == Down ==> t.shutdowns == 1)
  {
    var s := After(Init(capacity, consumers), acts);
    RunInv(Init(capacity, consumers), acts);
    RunInv(s, more);
    ConsumersBelow(consumers);
    assert forall w :: w in s.work ==> w in s.work.Keys;
    RefusingRunIsShort(s, consumers, more);
    StepsBound(s.work, consumers);
    if After(s, more).phase != Down {
      SomeoneMoves(After(s, more));
    }
  }

  lemma {:induction false} StepsBound(work: map<Consumer, Work>, n: nat)
    ensures AllSteps(work, n) <= 4 * n
  {
    if n > 0 {
      StepsBound(work, n - 1);
    }
  }

  // ------------------------------------------------ where every request has gone

  /** The requests accepted in a run, in order. */
  function Produced(acts: seq<Action>): seq<Req> {
    if acts == [] then [] else if acts[0].Produce? then [acts[0].r] + Produced(acts[1..]) else Produced(acts[1..])
  }

  /** What a consumer has in hand. */
  function InHand(x: Work): set<Req> {
    if x.Sending? || x.Waiting? then {x.r} else {}
  }

  /** The requests consumers got from the queue, in order. */
  ghost function Taken(s: State, acts: seq<Action>): seq<set<Req>>
    requires CanRun(s, acts)
    decreases |acts|
  {
    if acts == [] then []
    else
      var a, t := acts[0], Do(s, acts[0]);
      var rest := Taken(t, acts[1..]);
      if a.Take? && a.w in t.work then [InHand(t.work[a.w])] + rest else rest
  }

  function Singles(rs: seq<Req>): (xs: seq<set<Req>>)
    ensures |xs| == |rs| && forall i :: 0 <= i < |rs| ==> xs[i] == {rs[i]}
  {
    seq(|rs|, i requires 0 <= i < |rs| => {rs[i]})
  }

  lemma {:induction false} QueueIsFair(s: State, acts: seq<Action>)
    requires CanRun(s, acts)
    ensures Singles(s.queue + Produced(acts)) == Taken(s, acts) + Singles(After(s, acts).queue)
    decreases |acts|
  {
    if acts != [] {
      var a, t := acts[0], Do(s, acts[0]);
      QueueIsFair(t, acts[1..]);
      if a.Take? {
        TakeOne(s.queue, Produced(acts[1..]), Taken(t, acts[1..]), Singles(After(t, acts[1..]).queue));
      } else if a.Produce? {
        PutOne(s.queue, a.r, Produced(acts[1..]));
      }
    }
  }

  lemma PutOne(queue: seq<Req>, r: Req, more: seq<Req>)
    ensures queue + ([r] + more) == (queue + [r]) + more
  {
  }

  lemma TakeOne(queue: seq<Req>, more: seq<Req>, taken: seq<set<Req>>, left: seq<set<Req>>)
    requires queue != [] && Singles(queue[1..] + more) == taken + left
    ensures Singles(queue + more) == ([{queue[0]}] + taken) + left
  {
    assert queue + more == [queue[0]] + (queue[1..] + more);
    assert Singles(queue + more) == [{queue[0]}] + Singles(queue[1..] + more);
  }

  /** First accepted, first tried. */
  lemma FirstInFirstOut(capacity: nat, consumers: nat, acts: seq<Action>)
    requires CanRun(Init(capacity, consumers), acts)
    ensures Singles(Produced(acts)) == Taken(Init(capacity, consumers), acts) + Singles(After(Init(capacity, consumers), acts).queue)
  {
    QueueIsFair(Init(capacity, consumers), acts);
    assert [] + Produced(acts) == Produced(acts);
  }

  /** The requests a consumer was done with in a run: finished, or woken from the wait. */
  function DoneWith(s: State, acts: seq<Action>): set<Req>
    requires CanRun(s, acts)
    decreases |acts|
  {
    if acts == [] then {}
    else
      var a := acts[0];
      (if a.Finish? || a.WakeUp? then InHand(s.work[a.w]) else {}) + DoneWith(Do(s, a), acts[1..])
  }

  ghost predicate SomeoneHas(s: State, r: Req) {
    exists w :: w in s.work && r in InHand(s.work[w])
  }

  /** A request is in the queue, in a consumer's hand, or done with, and in one of
      these only. */
  ghost predicate Whole(s: State, done: set<Req>) {
    && (forall r :: r in s.accepted <==> r in s.queue || SomeoneHas(s, r) || r in done)
    && (forall r :: r in done ==> r !in s.queue && !SomeoneHas(s, r))
  }

  lemma StepKeepsWhole(s: State, done: set<Req>, a: Action)
    requires Inv(s) && Whole(s, done) && Enabled(s, a)
    ensures Whole(Do(s, a), done + if a.Finish? || a.WakeUp? then InHand(s.work[a.w]) else {})
  {
    var t := Do(s, a);
    var done' := done + if a.Finish? || a.WakeUp? then InHand(s.work[a.w]) else {};
    forall r
      ensures r in t.accepted <==> r in t.queue || SomeoneHas(t, r) || r in done'
    {
      IsSomewhere(s, done, a, r);
    }
    forall r | r in done'
      ensures r !in t.queue && !SomeoneHas(t, r)
    {
      StaysDone(s, done, a, r);
    }
  }

  lemma IsSomewhere(s: State, done: set<Req>, a: Action, r: Req)
    requires Inv(s) && Whole(s, done) && Enabled(s, a)
    ensures var t := Do(s, a);
            var done' := done + if a.Finish? || a.WakeUp? then InHand(s.work[a.w]) else {};
            r in t.accepted <==> r in t.queue || SomeoneHas(t, r) || r in done'
  {
    HandsChange(s, a, r);
    if a.Take? {
      TakeSplits(s);
    }
    if a.Finish? || a.WakeUp? {
      assert r in InHand(s.work[a.w]) ==> SomeoneHas(s, r);
    }
  }

  /** What one step changes about who has `r` in hand. */
  lemma HandsChange(s: State, a: Action, r: Req)
    requires Enabled(s, a)
    ensures SomeoneHas(Do(s, a), r) ==> SomeoneHas(s, r) || (a.Take? && r == s.queue[0])
    ensures SomeoneHas(s, r) ==> SomeoneHas(Do(s, a), r) || ((a.Finish? || a.WakeUp?) && r in InHand(s.work[a.w]))
    ensures a.Take? ==> SomeoneHas(Do(s, a), s.queue[0])
  {
    var t := Do(s, a);
    if w :| w in t.work && r in InHand(t.work[w]) {
      WasBusy(s, a, w, r);
      assert Busy(s, w, r) ==> w in s.work && r in InHand(s.work[w]);
    }
    if w :| w in s.work && r in InHand(s.work[w]) {
      assert w in t.work && (r in InHand(t.work[w]) || a == Finish(w) || a == WakeUp(w));
    }
    if a.Take? {
      assert a.w in t.work && s.queue[0] in InHand(t.work[a.w]);
    }
  }

  lemma StaysDone(s: State, done: set<Req>, a: Action, r: Req)
    requires Inv(s) && Whole(s, done) && Enabled(s, a)
    requires r in done + if a.Finish? || a.WakeUp? then InHand(s.work[a.w]) else {}
    ensures r !in Do(s, a).queue && !SomeoneHas(Do(s, a), r)
  {
    var t := Do(s, a);
    if a.Take? {
      TakeSplits(s);
    }
    if r !in done {
      assert Busy(s, a.w, r);
    }
    forall w | Busy(s, w, r)
      ensures SomeoneHas(s, r)
    {
      assert w in s.work && r in InHand(s.work[w]);
    }
    forall w | w in t.work && r in InHand(t.work[w])
      ensures false
    {
      assert Busy(t, w, r);
      WasBusy(s, a, w, r);
    }
  }

  lemma {:induction false} StaysWhole(s: State, done: set<Req>, acts: seq<Action>)
    requires Inv(s) && Whole(s, done) && CanRun(s, acts)
    ensures Whole(After(s, acts), done + DoneWith(s, acts))
    decreases |acts|
  {
    if acts == [] {
      assert done + {} == done;
    } else {
      var a := acts[0];
      var more := if a.Finish? || a.WakeUp? then InHand(s.work[a.w]) else {};
      StepKeepsWhole(s, done, a);
      assert acts[..1] == [a];
      RunInv(s, [a]);
      StaysWhole(Do(s, a), done + more, acts[1..]);
      assert done + more + DoneWith(Do(s, a), acts[1..]) == done + DoneWith(s, acts);
    }
  }

  /** In every run each accepted request is queued, in one consumer's hand, or done
      with: none is lost, and none that is done with comes back. */
  lemma NoRequestIsLost(capacity: nat, consumers: nat, acts: seq<Action>)
    requires CanRun(Init(capacity, consumers), acts)
    ensures Whole(After(Init(capacity, consumers), acts), DoneWith(Init(capacity, consumers), acts))
  {
    var init := Init(capacity, consumers);
    StaysWhole(init, {}, acts);
    assert {} + DoneWith(init, acts) == DoneWith(init, acts);
  }

  /** How often an attempt at `r` begins in a run, while the stop channel is open
      or once it is closed. */
  ghost function Tries(s: State, acts: seq<Action>, r: Req, closed: bool): nat
    requires CanRun(s, acts)
    decreases |acts|
  {
    if acts == [] then 0
    else
      var a, t := acts[0], Do(s, acts[0]);
      (if (a.Take? || a.Timer?) && (s.phase != Up) == closed && a.w in t.work && r in InHand(t.work[a.w]) then 1 else 0)
      + Tries(t, acts[1..], r, closed)
  }

  /** The counts of attempts are what they say. */
  lemma {:induction false} AttemptsAreCounted(s: State, acts: seq<Action>, r: Req)
    requires CanRun(s, acts)
    ensures Count(After(s, acts).before, r) == Count(s.before, r) + Tries(s, acts, r, false)
    ensures Count(After(s, acts).after, r) == Count(s.after, r) + Tries(s, acts, r, true)
    decreases |acts|
  {
    if acts != [] {
      AttemptsAreCounted(Do(s, acts[0]), acts[1..], r);
    }
  }

  /** The queue never holds more than its size. */
  lemma {:induction false} QueueIsBounded(s: State, acts: seq<Action>)
    requires CanRun(s, acts) && |s.queue| <= s.capacity
    ensures After(s, acts).capacity == s.capacity && |After(s, acts).queue| <= s.capacity
    decreases |acts|
  {
    if acts != [] {
      QueueIsBounded(Do(s, acts[0]), acts[1..]);
    }
  }

  /** The steps Shutdown takes, in the order it must take them. */
  const SHUTDOWN: seq<Action> := [CloseStop, StopQueue, QueueStopped, ShutExporter]

  function StepsTaken(phase: Phase): nat {
    match phase
    case Up => 0
    case RetryStopped => 1
    case Stopping => 2
    case Drained => 3
    case Down => 4
  }

  function ShutdownSteps(acts: seq<Action>): seq<Action> {
    if acts == [] then []
    else if acts[0] in SHUTDOWN then [acts[0]] + ShutdownSteps(acts[1..])
    else ShutdownSteps(acts[1..])
  }

  /** However it is interleaved and however often it is called, Shutdown closes the
      stop channel, stops the queue, waits for it and shuts the exporter down, in
      this order and each once. */
  lemma {:induction false} ShutdownIsInOrder(s: State, acts: seq<Action>)
    requires CanRun(s, acts)
    ensures StepsTaken(s.phase) <= StepsTaken(After(s, acts).phase)
    ensures ShutdownSteps(acts) == SHUTDOWN[StepsTaken(s.phase)..StepsTaken(After(s, acts).phase)]
    decreases |acts|
  {
    if acts != [] {
      var a, t := acts[0], Do(s, acts[0]);
      ShutdownIsInOrder(t, acts[1..]);
      OneShutdownStep(s, a);
      if a in SHUTDOWN {
        var i, j := StepsTaken(s.phase), StepsTaken(After(s, acts).phase);
        assert SHUTDOWN[i..j] == [SHUTDOWN[i]] + SHUTDOWN[i + 1..j];
      }
    }
  }

  lemma OneShutdownStep(s: State, a: Action)
    requires Enabled(s, a)
    ensures var i := StepsTaken(s.phase);
            if a in SHUTDOWN then i < 4 && a == SHUTDOWN[i] && StepsTaken(Do(s, a).phase) == i + 1
            else Do(s, a).phase == s.phase
  {
  }

  /** A request that backs off is tried again. */
  lemma TriedAgain(r: Req) returns (acts: seq<Action>, s: State)
    ensures acts == [Produce(r), Take(0), BackOff(0), Timer(0), Finish(0)]
    ensures CanRun(Init(1, 1), acts) && s == After(Init(1, 1), acts)
    ensures s.queue == [] && s.accepted == {r} && Count(s.before, r) == 2 && s.work == map[0 := Idle]
  {
    var init := Init(1, 1);
    acts, s := [], init;
    assert s.work == map[0 := Idle];
    Then(init, acts, Produce(r));
    acts, s := acts + [Produce(r)], Do(s, Produce(r));
    assert s.queue == [r];
    Then(init, acts, Take(0));
    acts, s := acts + [Take(0)], Do(s, Take(0));
    assert s.queue == [] && Count(s.before, r) == 1;
    Then(init, acts, BackOff(0));
    acts, s := acts + [BackOff(0)], Do(s, BackOff(0));
    Then(init, acts, Timer(0));
    acts, s := acts + [Timer(0)], Do(s, Timer(0));
    Then(init, acts, Finish(0));
    acts, s := acts + [Finish(0)], Do(s, Finish(0));
  }
}
