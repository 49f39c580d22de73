/** The remote-write exporter's shutdown: PushMetrics registers with a wait group
    and then looks at the close channel; Shutdown closes the channel and waits.
    An action is one step of one call; runs are all interleavings. */
module RemoteWriteShutdown {

  type Call = nat

  /** A push has registered; is translating and sending; is about to sign off;
      has returned. `refused` says what it will return. */
  datatype Push = Registered | Working | Leaving(refused: bool) | Returned(refused: bool)

  datatype Shutdown = NotCalled | Waiting | Finished

  datatype State = State(waitGroup: nat, closed: bool, pushes: map<Call, Push>, shutdown: Shutdown)

  datatype Action =
    | Register(p: Call)
    | PassCheck(p: Call)
    | FailCheck(p: Call)
    | Complete(p: Call)
    | SignOff(p: Call)
    | CloseChannel
    | StopWaiting

  function Init(): State {
    State(0, false, map[], NotCalled)
  }

  predicate Enabled(s: State, a: Action) {
    match a
    case Register(p) => p !in s.pushes
    case PassCheck(p) => p in s.pushes && s.pushes[p] == Registered && !s.closed
    case FailCheck(p) => p in s.pushes && s.pushes[p] == Registered && s.closed
    case Complete(p) => p in s.pushes && s.pushes[p] == Working
    case SignOff(p) => p in s.pushes && s.pushes[p].Leaving? && s.waitGroup > 0
    case CloseChannel => s.shutdown == NotCalled
    case StopWaiting => s.shutdown == Waiting && s.waitGroup == 0
  }

  function Do(s: State, a: Action): State
    requires Enabled(s, a)
  {
    match a
    case Register(p) => s.(waitGroup := s.waitGroup + 1, pushes := s.pushes[p := Registered])
    case PassCheck(p) => s.(pushes := s.pushes[p := Working])
    case FailCheck(p) => s.(pushes := s.pushes[p := Leaving(true)])
    case Complete(p) => s.(pushes := s.pushes[p := Leaving(false)])
    case SignOff(p) => s.(waitGroup := s.waitGroup - 1, pushes := s.pushes[p := Returned(s.pushes[p].refused)])
    case CloseChannel => s.(closed := true, shutdown := Waiting)
    case StopWaiting => s.(shutdown := Finished)
  }

  /** The actions can be taken one after the other. */
  predicate CanRun(s: State, acts: seq<Action>)
    decreases |acts|
  {
    acts == [] || (Enabled(s, acts[0]) && CanRun(Do(s, acts[0]), acts[1..]))
  }

  function After(s: State, acts: seq<Action>): State
    requires CanRun(s, acts)
    decreases |acts|
  {
    if acts == [] then s else After(Do(s, acts[0]), acts[1..])
  }

  ghost function Inside(s: State): set<Call> {
    set p | p in s.pushes && !s.pushes[p].Returned?
  }

  /** A push past the check counts as accepted. */
  predicate Accepted(x: Push) {
    x == Working || x == Leaving(false) || x == Returned(false)
  }

  ghost predicate Inv(s: State) {
    && s.waitGroup == |Inside(s)|
    && (s.closed <==> s.shutdown != NotCalled)
    && (s.shutdown == Finished ==> forall p :: p in s.pushes && Accepted(s.pushes[p]) ==> s.pushes[p].Returned?)
  }

  lemma StepInv(s: State, a: Action)
    requires Inv(s) && Enabled(s, a)
    ensures Inv(Do(s, a))
  {
    var t := Do(s, a);
    match a
    case Register(p) =>
      assert Inside(t) == Inside(s) + {p};
    case SignOff(p) =>
      assert p in Inside(s);
      assert Inside(t) == Inside(s) - {p};
    case StopWaiting =>
      assert Inside(t) == Inside(s) == {};
      assert forall p :: p in s.pushes && !s.pushes[p].Returned? ==> p in Inside(s);
    case _ =>
      assert Inside(t) == Inside(s);
  }

  lemma {:induction false} RunInv(s: State, acts: seq<Action>)
    requires Inv(s) && CanRun(s, acts)
    ensures Inv(After(s, acts))
    decreases |acts|
  {
    if acts != [] {
      StepInv(s, acts[0]);
      RunInv(Do(s, acts[0]), acts[1..]);
    }
  }

  lemma InitInv()
    ensures Inv(Init())
  {
    assert Inside(Init()) == {};
  }

  /** Once Shutdown has returned, after any run, no push is translating or
      sending and every push that passed the check has returned. */
  lemma ShutdownIsSafe(acts: seq<Action>)
    requires CanRun(Init(), acts) && After(Init(), acts).shutdown == Finished
    ensures var s := After(Init(), acts);
            forall p :: p in s.pushes ==> s.pushes[p] != Working && (Accepted(s.pushes[p]) ==> s.pushes[p].Returned?)
  {
    InitInv();
    RunInv(Init(), acts);
  }

  /** And however such a run goes on, no push is accepted any more. */
  lemma {:induction false} ShutdownIsFinal(s: State, more: seq<Action>)
    requires Inv(s) && s.shutdown == Finished && CanRun(s, more)
    ensures var t := After(s, more);
            && t.shutdown == Finished
            && (forall p :: p in t.pushes && Accepted(t.pushes[p]) ==> p in s.pushes && s.pushes[p] == t.pushes[p] == Returned(false))
    decreases |more|
  {
    if more != [] {
      StepInv(s, more[0]);
      ShutdownIsFinal(Do(s, more[0]), more[1..]);
    }
  }

  /** Shutdown is not held up for ever by the protocol itself: while it waits,
      some registered push can take a step, or it can return. */
  lemma ShutdownNeverSticks(acts: seq<Action>)
    requires CanRun(Init(), acts)
    ensures var s := After(Init(), acts);
            s.shutdown == Waiting && !Enabled(s, StopWaiting) ==>
              (exists p :: p in s.pushes && (Enabled(s, FailCheck(p)) || Enabled(s, Complete(p)) || Enabled(s, SignOff(p))))
  {
    var s := After(Init(), acts);
    InitInv();
    RunInv(Init(), acts);
    if s.shutdown == Waiting && s.waitGroup > 0 {
      var p :| p in Inside(s);
      assert Enabled(s, FailCheck(p)) || Enabled(s, Complete(p)) || Enabled(s, SignOff(p));
    }
  }

  // ------------------------------------------------- what became of every push

  predicate Refused(x: Push) {
    x == Leaving(true) || x == Returned(true)
  }

  /** In every run: a push is registered exactly by Register, accepted exactly by
      passing the check and refused exactly by failing it, stays so, and has
      returned exactly if it signed off. */
  lemma {:induction false} OutcomeOfPush(s: State, acts: seq<Action>, p: Call)
    requires CanRun(s, acts)
    ensures var t := After(s, acts);
            && (p in t.pushes <==> p in s.pushes || Register(p) in acts)
            && (p in t.pushes && Accepted(t.pushes[p]) <==> (p in s.pushes && Accepted(s.pushes[p])) || PassCheck(p) in acts)
            && (p in t.pushes && Refused(t.pushes[p]) <==> (p in s.pushes && Refused(s.pushes[p])) || FailCheck(p) in acts)
            && (p in t.pushes && t.pushes[p].Returned? <==> (p in s.pushes && s.pushes[p].Returned?) || SignOff(p) in acts)
            && (t.closed <==> s.closed || CloseChannel in acts)
    decreases |acts|
  {
    if acts != [] {
      var a := acts[0];
      assert forall b :: b in acts <==> b == a || b in acts[1..];
      OutcomeOfPush(Do(s, a), acts[1..], p);
    }
  }

  /** The check is passed before the channel is closed and failed after. */
  lemma {:induction false} CheckFollowsChannel(s: State, acts: seq<Action>, i: nat)
    requires CanRun(s, acts) && i < |acts|
    ensures acts[i].PassCheck? ==> !s.closed && CloseChannel !in acts[..i]
    ensures acts[i].FailCheck? ==> s.closed || CloseChannel in acts[..i]
    decreases |acts|
  {
    if i > 0 {
      CheckFollowsChannel(Do(s, acts[0]), acts[1..], i - 1);
      assert acts[..i] == [acts[0]] + acts[1..][..i - 1];
    }
  }

  /** A push inside can always go on: to work while the channel is open, back
      while it is closed, and out in the end. */
  lemma PushGoesOn(acts: seq<Action>, p: Call)
    requires CanRun(Init(), acts) && p in Inside(After(Init(), acts))
    ensures var s := After(Init(), acts);
            match s.pushes[p]
            case Registered => Enabled(s, PassCheck(p)) == !s.closed && Enabled(s, FailCheck(p)) == s.closed
            case Working => Enabled(s, Complete(p))
            case Leaving(_) => Enabled(s, SignOff(p))
            case Returned(_) => false
  {
    InitInv();
    RunInv(Init(), acts);
  }

  /** And it is in and out in four steps. */
  lemma {:induction false} PushIsShort(s: State, acts: seq<Action>, p: Call)
    requires CanRun(s, acts)
    ensures StepsOf(acts, p) + StepsLeft(After(s, acts), p) <= StepsLeft(s, p)
    decreases |acts|
  {
    if acts != [] {
      PushIsShort(Do(s, acts[0]), acts[1..], p);
    }
  }

  function StepsLeft(s: State, p: Call): nat {
    if p !in s.pushes then 4
    else match s.pushes[p]
      case Registered => 3
      case Working => 2
      case Leaving(_) => 1
      case Returned(_) => 0
  }

  function StepsOf(acts: seq<Action>, p: Call): nat {
    if acts == [] then 0
    else
      var a := acts[0];
      (if a in {Register(p), PassCheck(p), FailCheck(p), Complete(p), SignOff(p)} then 1 else 0) + StepsOf(acts[1..], p)
  }
}
