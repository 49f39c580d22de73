/** The FluentBit process manager: one loop over process states, with a waiter
    goroutine for each started child that sends its exit over a channel, the
    children themselves, and a context that may be cancelled at any time. */
module ProcessManager {

  /** The loop's states; Running is split at the select that follows the write
      of the configuration. */
  datatype Loop = Starting | RunningWrite | RunningWait | ShuttingDown | Stopped | Restarting | Errored

  /** Children are numbered by their successful starts; the waiter of child `c`
      sends `c`'s exit over the one channel they all share. */
  datatype State = State(
    loop: Loop,
    cancelled: bool,
    alive: set<nat>,     // children running
    exited: set<nat>,    // children that have exited, their message not yet received
    received: set<nat>,  // children whose message was received
    starts: nat,         // successful starts
    failedWrites: nat)   // configuration writes that failed

  datatype Action =
    | Cancel
    | ChildExits(c: nat)
    | StartOk
    | StartFails
    | WriteOk
    | WriteFails
    | ReceiveExit(c: nat)      // in the select, or after the terminate signal
    | SeeCancelled
    | LogError
    | Restart

  function Init(): State {
    State(Starting, false, {}, {}, {}, 0, 0)
  }

  /** An empty configuration is not written at all, so it cannot fail. */
  predicate Enabled(config: string, s: State, a: Action) {
    match a
    case Cancel => true
    case ChildExits(c) => c in s.alive
    case StartOk => s.loop == Starting
    case StartFails => s.loop == Starting
    case WriteOk => s.loop == RunningWrite
    case WriteFails => s.loop == RunningWrite && config != ""
    case ReceiveExit(c) => (s.loop == RunningWait || s.loop == ShuttingDown) && c in s.exited
    case SeeCancelled => s.loop == RunningWait && s.cancelled
    case LogError => s.loop == Errored
    case Restart => s.loop == Restarting
  }

  function Do(config: string, s: State, a: Action): State
    requires Enabled(config, s, a)
  {
    match a
    case Cancel => s.(cancelled := true)
    case ChildExits(c) => s.(alive := s.alive - {c}, exited := s.exited + {c})
    case StartOk => s.(loop := RunningWrite, starts := s.starts + 1, alive := s.alive + {s.starts})
    case StartFails => s.(loop := Errored)
    case WriteOk => s.(loop := RunningWait)
    case WriteFails => s.(loop := Errored, failedWrites := s.failedWrites + 1)
    case ReceiveExit(c) =>
      s.(exited := s.exited - {c}, received := s.received + {c},
         loop := if s.loop == ShuttingDown || s.cancelled then Stopped else Errored)
    case SeeCancelled => s.(loop := ShuttingDown)
    case LogError => s.(loop := Restarting)
    case Restart => s.(loop := Starting)
  }

  /** The actions can be taken one after the other. */
  predicate CanRun(config: string, s: State, acts: seq<Action>)
    decreases |acts|
  {
    acts == [] || (Enabled(config, s, acts[0]) && CanRun(config, Do(config, s, acts[0]), acts[1..]))
  }

  function After(config: string, s: State, acts: seq<Action>): State
    requires CanRun(config, s, acts)
    decreases |acts|
  {
    if acts == [] then s else After(config, Do(config, s, acts[0]), acts[1..])
  }

  /** A run goes on with one more action. */
  lemma {:induction false} Then(config: string, s: State, acts: seq<Action>, a: Action)
    requires CanRun(config, s, acts) && Enabled(config, After(config, s, acts), a)
    ensures CanRun(config, s, acts + [a]) && After(config, s, acts + [a]) == Do(config, After(config, s, acts), a)
    decreases |acts|
  {
    if acts == [] {
      assert [a][1..] == [] && acts + [a] == [a];
    } else {
      Then(config, Do(config, s, acts[0]), acts[1..], a);
      assert (acts + [a])[1..] == acts[1..] + [a];
    }
  }

  // --------------------------------------------------------------- invariants

  /** Exit messages that will still be sent or wait to be received. */
  function Owed(s: State): nat {
    |s.alive| + |s.exited|
  }

  predicate HasChild(l: Loop) {
    l == RunningWrite || l == RunningWait || l == ShuttingDown
  }

  /** The child the loop is running, waiting for, or ending. */
  predicate IsCurrent(s: State, c: nat) {
    c + 1 == s.starts
  }

  /** Every started child is running, has exited, or was heard of. */
  ghost predicate Accounted(s: State) {
    && s.alive !! s.exited && s.alive !! s.received && s.exited !! s.received
    && (forall c: nat :: (c in s.alive || c in s.exited || c in s.received) <==> c < s.starts)
  }

  /** One message for each successful start, received or still owed; what is owed
      is the current child's message and one for every failed configuration
      write; and the loop ends, or begins to end, only after cancellation. */
  ghost predicate Balanced(config: string, s: State) {
    && Owed(s) + |s.received| == s.starts
    && Owed(s) == (if HasChild(s.loop) then 1 else 0) + s.failedWrites
    && (s.loop == Stopped || s.loop == ShuttingDown ==> s.cancelled)
    && (config == "" ==> s.failedWrites == 0)
  }

  /** The current child has not been heard of. */
  ghost predicate Unheard(s: State) {
    HasChild(s.loop) ==> s.starts > 0 && s.starts - 1 !in s.received
  }

  ghost predicate Inv(config: string, s: State) {
    Accounted(s) && Balanced(config, s) && Unheard(s)
  }

  lemma StepAccounts(config: string, s: State, a: Action)
    requires Accounted(s) && Unheard(s) && Enabled(config, s, a)
    ensures Accounted(Do(config, s, a)) && Unheard(Do(config, s, a))
  {
  }

  lemma StepBalances(config: string, s: State, a: Action)
    requires Accounted(s) && Balanced(config, s) && Enabled(config, s, a)
    ensures Balanced(config, Do(config, s, a))
  {
    SizesChange(config, s, a);
    var t := Do(config, s, a);
    assert Owed(t) == Owed(s) + (if a.StartOk? then 1 else if a.ReceiveExit? then -1 else 0);
    assert Owed(t) + |t.received| == t.starts;
  }

  /** How one step changes the number of children in each place. */
  lemma SizesChange(config: string, s: State, a: Action)
    requires Accounted(s) && Enabled(config, s, a)
    ensures var t := Do(config, s, a);
            && |t.alive| == |s.alive| + (if a.StartOk? then 1 else if a.ChildExits? then -1 else 0)
            && |t.exited| == |s.exited| + (if a.ChildExits? then 1 else if a.ReceiveExit? then -1 else 0)
            && |t.received| == |s.received| + (if a.ReceiveExit? then 1 else 0)
  {
    if a.ChildExits? {
      Moves(s.alive, s.exited, a.c);
    } else if a.ReceiveExit? {
      Moves(s.exited, s.received, a.c);
    } else if a.StartOk? {
      assert s.starts !in s.alive;
    }
  }

  lemma Moves(x: set<nat>, y: set<nat>, c: nat)
    requires x !! y && c in x
    ensures |x - {c}| == |x| - 1 && |y + {c}| == |y| + 1
  {
  }

  lemma {:induction false} RunBalances(config: string, s: State, acts: seq<Action>)
    requires Inv(config, s) && CanRun(config, s, acts)
    ensures Inv(config, After(config, s, acts))
    decreases |acts|
  {
    if acts != [] {
      StepAccounts(config, s, acts[0]);
      StepBalances(config, s, acts[0]);
      RunBalances(config, Do(config, s, acts[0]), acts[1..]);
    }
  }

  lemma Reached(config: string, acts: seq<Action>) returns (s: State)
    requires CanRun(config, Init(), acts)
    ensures s == After(config, Init(), acts) && Inv(config, s)
  {
    assert Inv(config, Init());
    RunBalances(config, Init(), acts);
    s := After(config, Init(), acts);
  }

  /** While no write has failed, the only child unheard of is the current one. */
  lemma OnlyCurrent(config: string, s: State, c: nat)
    requires Inv(config, s) && s.failedWrites == 0 && (c in s.alive || c in s.exited)
    ensures HasChild(s.loop) && IsCurrent(s, c) && |s.alive| <= 1
  {
    var d := s.starts - 1;
    if s.alive == {} {
      assert |s.exited| == 1 && d in s.exited;
      Single(s.exited, c, d);
    } else if s.exited == {} {
      assert |s.alive| == 1 && d in s.alive;
      Single(s.alive, c, d);
    }
  }

  lemma Single(x: set<nat>, a: nat, b: nat)
    requires |x| == 1 && a in x && b in x
    ensures a == b
  {
    assert |x - {a}| == 0;
  }

  // ------------------------------------------- with and without a configuration

  /** What one would want of every run: never two children at once, an exit
      message is always the current child's, and no child outlives the loop. */
  ghost predicate OneAtATime(s: State) {
    && |s.alive| <= 1
    && (forall c :: (s.loop == RunningWait || s.loop == ShuttingDown) && c in s.exited ==> IsCurrent(s, c))
    && (s.loop == Stopped ==> s.alive == {})
  }

  ghost predicate NeverTwoChildren(config: string) {
    forall acts :: CanRun(config, Init(), acts) ==> |After(config, Init(), acts).alive| <= 1
  }

  ghost predicate NeverMistaken(config: string) {
    forall acts, c :: CanRun(config, Init(), acts) && Enabled(config, After(config, Init(), acts), ReceiveExit(c)) ==>
                        IsCurrent(After(config, Init(), acts), c)
  }

  ghost predicate NeverOutlived(config: string) {
    forall acts :: CanRun(config, Init(), acts) && After(config, Init(), acts).loop == Stopped ==>
                     After(config, Init(), acts).alive == {}
  }

  /** Every run in which no write has failed is as one would want, whatever the
      configuration; without one that is every run. */
  lemma NoFailedWriteOneChild(config: string, acts: seq<Action>)
    requires CanRun(config, Init(), acts)
    ensures config == "" ==> After(config, Init(), acts).failedWrites == 0
    ensures After(config, Init(), acts).failedWrites == 0 ==> OneAtATime(After(config, Init(), acts))
  {
    var s := Reached(config, acts);
    if s.failedWrites == 0 {
      forall c | c in s.alive || c in s.exited
        ensures HasChild(s.loop) && IsCurrent(s, c) && |s.alive| <= 1
      {
        OnlyCurrent(config, s, c);
      }
      if s.alive != {} {
        var c :| c in s.alive;
      }
    }
  }

  /** Two children are never alive at once, in any run, exactly when there is no
      configuration to write: a failed write abandons a running child and starts
      the next one. */
  lemma OneChildIffNoConfig(config: string)
    ensures NeverTwoChildren(config) <==> config == ""
  {
    if config == "" {
      forall acts | CanRun(config, Init(), acts)
        ensures |After(config, Init(), acts).alive| <= 1
      {
        NoFailedWriteOneChild(config, acts);
      }
    } else {
      var acts, s := SecondChild(config);
      assert |s.alive| == 2;
    }
  }

  /** Likewise exactly then is every exit message the current child's ... */
  lemma OwnExitIffNoConfig(config: string)
    ensures NeverMistaken(config) <==> config == ""
  {
    if config == "" {
      forall acts, c | CanRun(config, Init(), acts) && Enabled(config, After(config, Init(), acts), ReceiveExit(c))
        ensures IsCurrent(After(config, Init(), acts), c)
      {
        NoFailedWriteOneChild(config, acts);
      }
    } else {
      var acts, s := ForeignExit(config);
      assert Enabled(config, s, ReceiveExit(0)) && !IsCurrent(s, 0);
    }
  }

  /** ... and does the loop return only when no child is left running. */
  lemma NoneOutlivesIffNoConfig(config: string)
    ensures NeverOutlived(config) <==> config == ""
  {
    if config == "" {
      forall acts | CanRun(config, Init(), acts) && After(config, Init(), acts).loop == Stopped
        ensures After(config, Init(), acts).alive == {}
      {
        NoFailedWriteOneChild(config, acts);
      }
    } else {
      var acts, s := ForeignExit(config);
      Then(config, Init(), acts, ReceiveExit(0));
      assert 1 in Do(config, s, ReceiveExit(0)).alive;
    }
  }

  /** A failed write, then a second start: two children. */
  lemma SecondChild(config: string) returns (acts: seq<Action>, s: State)
    requires config != ""
    ensures CanRun(config, Init(), acts) && s == After(config, Init(), acts)
    ensures s == State(RunningWrite, false, {0, 1}, {}, {}, 2, 1)
  {
    acts := [];
    Then(config, Init(), acts, StartOk);
    acts := acts + [StartOk];
    Then(config, Init(), acts, WriteFails);
    acts := acts + [WriteFails];
    Then(config, Init(), acts, LogError);
    acts := acts + [LogError];
    Then(config, Init(), acts, Restart);
    acts := acts + [Restart];
    Then(config, Init(), acts, StartOk);
    acts := acts + [StartOk];
    s := After(config, Init(), acts);
    assert s.alive == {0, 1};
  }

  /** The abandoned child exits while the second one is being ended. */
  lemma ForeignExit(config: string) returns (acts: seq<Action>, s: State)
    requires config != ""
    ensures CanRun(config, Init(), acts) && s == After(config, Init(), acts)
    ensures s == State(ShuttingDown, true, {1}, {0}, {}, 2, 1)
  {
    acts, s := SecondChild(config);
    Then(config, Init(), acts, WriteOk);
    acts := acts + [WriteOk];
    Then(config, Init(), acts, Cancel);
    acts := acts + [Cancel];
    Then(config, Init(), acts, SeeCancelled);
    acts := acts + [SeeCancelled];
    Then(config, Init(), acts, ChildExits(0));
    acts := acts + [ChildExits(0)];
    s := After(config, Init(), acts);
    assert s.alive == {1} && s.exited == {0};
  }

  /** When the loop has returned, exactly as many children are unaccounted for as
      configuration writes have failed. */
  lemma LeftBehind(config: string, acts: seq<Action>)
    requires CanRun(config, Init(), acts) && After(config, Init(), acts).loop == Stopped
    ensures After(config, Init(), acts).cancelled
    ensures Owed(After(config, Init(), acts)) == After(config, Init(), acts).failedWrites
  {
    var s := Reached(config, acts);
  }

  /** The steps of the loop itself. */
  predicate LoopStep(a: Action) {
    !a.Cancel? && !a.ChildExits?
  }

  /** The loop is held up only by a child of its own that is still running: one
      it has no reason to end, or one it has told to end. */
  lemma NeverHangs(config: string, acts: seq<Action>)
    requires CanRun(config, Init(), acts)
    ensures var s := After(config, Init(), acts);
            s.loop == Stopped
            || (exists a :: LoopStep(a) && Enabled(config, s, a))
            || (s.starts > 0 && s.starts - 1 in s.alive && if s.cancelled then s.loop == ShuttingDown else s.loop == RunningWait)
  {
    var s := Reached(config, acts);
    match s.loop
    case Starting => assert LoopStep(StartOk) && Enabled(config, s, StartOk);
    case RunningWrite => assert LoopStep(WriteOk) && Enabled(config, s, WriteOk);
    case RunningWait => Listening(config, s);
    case ShuttingDown => Listening(config, s);
    case Restarting => assert LoopStep(Restart) && Enabled(config, s, Restart);
    case Errored => assert LoopStep(LogError) && Enabled(config, s, LogError);
    case Stopped =>
  }

  lemma Listening(config: string, s: State)
    requires Inv(config, s) && (s.loop == RunningWait || s.loop == ShuttingDown)
    ensures (exists a :: LoopStep(a) && Enabled(config, s, a)) || s.starts - 1 in s.alive
    ensures s.loop == RunningWait && s.cancelled ==> exists a :: LoopStep(a) && Enabled(config, s, a)
  {
    if s.starts - 1 in s.exited {
      assert LoopStep(ReceiveExit(s.starts - 1)) && Enabled(config, s, ReceiveExit(s.starts - 1));
    }
    if s.loop == RunningWait && s.cancelled {
      assert LoopStep(SeeCancelled) && Enabled(config, s, SeeCancelled);
    }
  }

  // ------------------------------------------------------- the loop's bookkeeping

  /** Something goes wrong: a start or a write fails, or a child exits before the
      context was cancelled. */
  predicate GoesWrong(s: State, a: Action) {
    a.StartFails? || a.WriteFails? || (a.ReceiveExit? && !s.cancelled)
  }

  /** How often in a run. */
  function Failures(config: string, s: State, acts: seq<Action>): nat
    requires CanRun(config, s, acts)
    decreases |acts|
  {
    if acts == [] then 0
    else One(GoesWrong(s, acts[0])) + Failures(config, Do(config, s, acts[0]), acts[1..])
  }

  /** How often an exit is received after the cancellation. */
  function Endings(config: string, s: State, acts: seq<Action>): nat
    requires CanRun(config, s, acts)
    decreases |acts|
  {
    if acts == [] then 0
    else One(acts[0].ReceiveExit? && s.cancelled) + Endings(config, Do(config, s, acts[0]), acts[1..])
  }

  function Occurrences(acts: seq<Action>, kinds: set<Action>): nat {
    if acts == [] then 0 else One(acts[0] in kinds) + Occurrences(acts[1..], kinds)
  }

  function One(b: bool): nat {
    if b then 1 else 0
  }

  function At(l: Loop, here: Loop): nat {
    if l == here then 1 else 0
  }

  /** Every failure is logged and answered by a restart, every restart and nothing
      else by an attempt to start, every start by a write, every successful write
      by a wait; and exactly the exits after cancellation end the loop. */
  ghost predicate Ledger(config: string, s: State, acts: seq<Action>)
    requires CanRun(config, s, acts)
  {
    var t := After(config, s, acts);
    && Failures(config, s, acts) + At(s.loop, Errored) == Occurrences(acts, {LogError}) + At(t.loop, Errored)
    && Occurrences(acts, {LogError}) + At(s.loop, Restarting) == Occurrences(acts, {Restart}) + At(t.loop, Restarting)
    && Occurrences(acts, {Restart}) + At(s.loop, Starting) == Occurrences(acts, {StartOk, StartFails}) + At(t.loop, Starting)
    && Occurrences(acts, {StartOk}) + At(s.loop, RunningWrite) == Occurrences(acts, {WriteOk, WriteFails}) + At(t.loop, RunningWrite)
    && Endings(config, s, acts) + At(s.loop, Stopped) == At(t.loop, Stopped)
    && (s.cancelled || Cancel in acts <==> t.cancelled)
    && t.starts == s.starts + Occurrences(acts, {StartOk})
    && t.failedWrites == s.failedWrites + Occurrences(acts, {WriteFails})
  }

  lemma LedgerStep(config: string, s: State, a: Action)
    requires Enabled(config, s, a) && (s.loop == ShuttingDown ==> s.cancelled)
    ensures var t := Do(config, s, a);
            && One(GoesWrong(s, a)) + At(s.loop, Errored) == One(a in {LogError}) + At(t.loop, Errored)
            && One(a in {LogError}) + At(s.loop, Restarting) == One(a in {Restart}) + At(t.loop, Restarting)
            && One(a in {Restart}) + At(s.loop, Starting) == One(a in {StartOk, StartFails}) + At(t.loop, Starting)
            && One(a in {StartOk}) + At(s.loop, RunningWrite) == One(a in {WriteOk, WriteFails}) + At(t.loop, RunningWrite)
            && One(a.ReceiveExit? && s.cancelled) + At(s.loop, Stopped) == At(t.loop, Stopped)
            && (s.cancelled || a == Cancel <==> t.cancelled) && (t.loop == ShuttingDown ==> t.cancelled)
            && t.starts == s.starts + One(a in {StartOk}) && t.failedWrites == s.failedWrites + One(a in {WriteFails})
  {
  }

  lemma {:induction false} RunKeepsLedger(config: string, s: State, acts: seq<Action>)
    requires CanRun(config, s, acts) && (s.loop == ShuttingDown ==> s.cancelled)
    ensures Ledger(config, s, acts)
    decreases |acts|
  {
    if acts != [] {
      LedgerStep(config, s, acts[0]);
      RunKeepsLedger(config, Do(config, s, acts[0]), acts[1..]);
    }
  }

  /** From the beginning: one attempt to start, and one more for each restart. */
  lemma RestartsFollowFailures(config: string, acts: seq<Action>)
    requires CanRun(config, Init(), acts)
    ensures Ledger(config, Init(), acts)
    ensures Occurrences(acts, {StartOk, StartFails}) <= 1 + Failures(config, Init(), acts)
    ensures After(config, Init(), acts).loop == Stopped <==> Endings(config, Init(), acts) == 1
  {
    RunKeepsLedger(config, Init(), acts);
  }
}
