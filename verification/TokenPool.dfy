/** The OpenCensus exporter's pool of RPC clients.

    A buffered channel holds one token per worker: nil, or an open stream. Any
    number of pushes take a token, use or create a stream, and put a token back;
    one shutdown drains the channel and closes it. The model is the state machine
    of all their interleavings: an action is one step of one of them. */
module TokenPool {
  import opened Options

  type Client = nat
  type PushId = nat

  type Token = Option<Client>

  /** Where a push is: it has received a token; it is sending on a stream; it is
      about to put a token back; it has returned. `sent` says what it will return. */
  datatype Push = Got(token: Token) | Streaming(client: Client) | Putting(token: Token, sent: bool) | Finished(sent: bool)

  datatype Shutdown = NotCalled | Draining | Done

  datatype State = State(
    workers: nat,
    channel: seq<Token>,
    closed: bool,
    pushes: map<PushId, Push>,
    shutdown: Shutdown,
    drained: seq<Token>,      // what shutdown received and forgot
    created: set<Client>,     // every stream ever opened
    live: set<Client>)        // those not cancelled

  datatype Action =
    | Take(p: PushId)              // receive a token
    | Refused(p: PushId)           // receive from the closed, empty channel
    | Open(p: PushId, c: Client)   // no stream yet: creating one succeeds
    | OpenFails(p: PushId)         // or fails
    | Reuse(p: PushId)             // the token carries a stream
    | SendFails(p: PushId)         // a send fails: cancel the stream
    | AllSent(p: PushId)
    | Put(p: PushId)               // send a token to the channel
    | BeginShutdown
    | Drain
    | Close

  function Init(workers: nat): State {
    State(workers, seq(workers, i => None), false, map[], NotCalled, [], {}, {})
  }

  predicate Enabled(s: State, a: Action) {
    match a
    case Take(p) => p !in s.pushes && s.channel != []
    case Refused(p) => p !in s.pushes && s.closed && s.channel == []
    case Open(p, c) => p in s.pushes && s.pushes[p] == Got(None) && c !in s.created
    case OpenFails(p) => p in s.pushes && s.pushes[p] == Got(None)
    case Reuse(p) => p in s.pushes && s.pushes[p].Got? && s.pushes[p].token.Some?
    case SendFails(p) => p in s.pushes && s.pushes[p].Streaming?
    case AllSent(p) => p in s.pushes && s.pushes[p].Streaming?
    case Put(p) => p in s.pushes && s.pushes[p].Putting? && !s.closed && |s.channel| < s.workers
    case BeginShutdown => s.shutdown == NotCalled
    case Drain => s.shutdown == Draining && |s.drained| < s.workers && s.channel != []
    case Close => s.shutdown == Draining && |s.drained| == s.workers
  }

  function Do(s: State, a: Action): State
    requires Enabled(s, a)
  {
    match a
    case Take(p) => s.(channel := s.channel[1..], pushes := s.pushes[p := Got(s.channel[0])])
    case Refused(p) => s.(pushes := s.pushes[p := Finished(false)])
    case Open(p, c) => s.(pushes := s.pushes[p := Streaming(c)], created := s.created + {c}, live := s.live + {c})
    case OpenFails(p) => s.(pushes := s.pushes[p := Putting(None, false)])
    case Reuse(p) => s.(pushes := s.pushes[p := Streaming(s.pushes[p].token.value)])
    case SendFails(p) => s.(pushes := s.pushes[p := Putting(None, false)], live := s.live - {s.pushes[p].client})
    case AllSent(p) => s.(pushes := s.pushes[p := Putting(Some(s.pushes[p].client), true)])
    case Put(p) => s.(channel := s.channel + [s.pushes[p].token], pushes := s.pushes[p := Finished(s.pushes[p].sent)])
    case BeginShutdown => s.(shutdown := Draining)
    case Drain => s.(channel := s.channel[1..], drained := s.drained + [s.channel[0]])
    case Close => s.(shutdown := Done, closed := true)
  }

  /** The actions can be taken one after the other. */
  predicate CanRun(s: State, acts: seq<Action>)
    decreases |acts|
  {
    acts == [] || (Enabled(s, acts[0]) && CanRun(Do(s, acts[0]), acts[1..]))
  }

  function After(s: State, acts: seq<Action>): State
    requires CanRun(s, acts)
    decreases |acts|
  {
    if acts == [] then s else After(Do(s, acts[0]), acts[1..])
  }

  /** A run goes on with one more action. */
  lemma {:induction false} Then(s: State, acts: seq<Action>, a: Action)
    requires CanRun(s, acts) && Enabled(After(s, acts), a)
    ensures CanRun(s, acts + [a]) && After(s, acts + [a]) == Do(After(s, acts), a)
    decreases |acts|
  {
    if acts == [] {
      assert [a][1..] == [] && acts + [a] == [a];
    } else {
      Then(Do(s, acts[0]), acts[1..], a);
      assert (acts + [a])[1..] == acts[1..] + [a];
    }
  }

  // ------------------------------------------------------------------- safety

  ghost function Holders(s: State): set<PushId> {
    set p | p in s.pushes && !s.pushes[p].Finished?
  }

  function TokenOf(x: Push): Token {
    match x
    case Got(t) => t
    case Streaming(c) => Some(c)
    case Putting(t, _) => t
    case Finished(_) => None
  }

  /** No token is ever lost or made up. */
  ghost predicate Conserved(s: State) {
    |s.channel| + |Holders(s)| + |s.drained| == s.workers
  }

  ghost predicate InOrder(s: State) {
    && (s.closed <==> s.shutdown == Done)
    && (s.shutdown == NotCalled ==> s.drained == [])
    && (s.closed ==> |s.drained| == s.workers)
  }

  ghost predicate Here(s: State, c: Client) {
    Some(c) in s.channel || exists p :: p in s.pushes && TokenOf(s.pushes[p]) == Some(c)
  }

  /** Every live stream is attached to a token, or was forgotten by shutdown. */
  ghost predicate Attached(s: State) {
    && (forall c :: c in s.live ==> Here(s, c) || Some(c) in s.drained)
    && (forall c :: Here(s, c) ==> c in s.created)
  }

  /** A stream belongs to one token only. */
  ghost predicate Exclusive(channel: seq<Token>, pushes: map<PushId, Push>) {
    && (forall i, j :: 0 <= i < j < |channel| && channel[i].Some? ==> channel[i] != channel[j])
    && (forall p :: p in pushes && TokenOf(pushes[p]).Some? ==> TokenOf(pushes[p]) !in channel)
    && (forall p, q :: p in pushes && q in pushes && p != q && TokenOf(pushes[p]).Some?
                       ==> TokenOf(pushes[p]) != TokenOf(pushes[q]))
  }

  ghost predicate Inv(s: State) {
    Conserved(s) && InOrder(s) && Attached(s) && Exclusive(s.channel, s.pushes)
  }

  lemma InitInv(workers: nat)
    ensures Inv(Init(workers))
  {
    assert Holders(Init(workers)) == {};
  }

  lemma StepConserves(s: State, a: Action)
    requires Conserved(s) && Enabled(s, a)
    ensures Conserved(Do(s, a))
  {
    var t := Do(s, a);
    match a
    case Take(p) =>
      assert Holders(t) == Holders(s) + {p};
    case Refused(p) =>
      assert Holders(t) == Holders(s);
    case Open(p, c) =>
      assert Holders(t) == Holders(s);
    case OpenFails(p) =>
      assert Holders(t) == Holders(s);
    case Reuse(p) =>
      assert Holders(t) == Holders(s);
    case SendFails(p) =>
      assert Holders(t) == Holders(s);
    case AllSent(p) =>
      assert Holders(t) == Holders(s);
    case Put(p) =>
      assert p in Holders(s);
      assert Holders(t) == Holders(s) - {p};
    case BeginShutdown =>
      assert Holders(t) == Holders(s);
    case Drain =>
      assert Holders(t) == Holders(s);
    case Close =>
      assert Holders(t) == Holders(s);
  }

  lemma StepAttaches(s: State, a: Action)
    requires Attached(s) && Enabled(s, a)
    ensures Attached(Do(s, a))
  {
    var t := Do(s, a);
    forall c | c in t.live
      ensures Here(t, c) || Some(c) in t.drained
    {
      if c !in s.live {
        assert a.p in t.pushes && TokenOf(t.pushes[a.p]) == Some(c);
      } else if Here(s, c) {
        StaysHere(s, a, c);
      }
    }
    forall c | Here(t, c)
      ensures c in t.created
    {
      WasHere(s, a, c);
    }
  }

  lemma StaysHere(s: State, a: Action, c: Client)
    requires Enabled(s, a) && Here(s, c) && c in Do(s, a).live
    ensures Here(Do(s, a), c) || Some(c) in Do(s, a).drained
  {
    var t := Do(s, a);
    if Some(c) in s.channel {
      if a.Take? {
        assert s.channel == [s.channel[0]] + t.channel;
        assert a.p in t.pushes && TokenOf(t.pushes[a.p]) == s.channel[0];
      } else if a.Drain? {
        assert s.channel == [s.channel[0]] + t.channel;
        assert s.channel[0] in t.drained;
      }
    } else {
      var p :| p in s.pushes && TokenOf(s.pushes[p]) == Some(c);
      if a.Put? && a.p == p {
        assert Some(c) in t.channel;
      } else {
        assert p in t.pushes && TokenOf(t.pushes[p]) == Some(c);
      }
    }
  }

  lemma WasHere(s: State, a: Action, c: Client)
    requires Enabled(s, a) && Here(Do(s, a), c)
    ensures Here(s, c) || c in Do(s, a).created - s.created
  {
    var t := Do(s, a);
    if Some(c) in t.channel {
      if a.Put? && Some(c) !in s.channel {
        assert TokenOf(s.pushes[a.p]) == Some(c);
      }
    } else {
      var p :| p in t.pushes && TokenOf(t.pushes[p]) == Some(c);
      if a.Take? && a.p == p {
        assert s.channel[0] == Some(c);
      } else if !(a.Open? && a.p == p) {
        assert p in s.pushes && TokenOf(s.pushes[p]) == Some(c);
      }
    }
  }

  lemma TakeKeepsExclusive(channel: seq<Token>, pushes: map<PushId, Push>, p: PushId)
    requires Exclusive(channel, pushes) && p !in pushes && channel != []
    ensures Exclusive(channel[1..], pushes[p := Got(channel[0])])
  {
    assert channel == [channel[0]] + channel[1..];
    assert forall t :: t in channel[1..] ==> t in channel;
  }

  lemma PutKeepsExclusive(channel: seq<Token>, pushes: map<PushId, Push>, p: PushId, sent: bool)
    requires Exclusive(channel, pushes) && p in pushes
    ensures Exclusive(channel + [TokenOf(pushes[p])], pushes[p := Finished(sent)])
  {
  }

  lemma ChangeKeepsExclusive(channel: seq<Token>, pushes: map<PushId, Push>, p: PushId, x: Push)
    requires Exclusive(channel, pushes) && p in pushes
    requires TokenOf(x).Some? ==>
               TokenOf(x) == TokenOf(pushes[p]) ||
               (TokenOf(x) !in channel && forall q :: q in pushes ==> TokenOf(pushes[q]) != TokenOf(x))
    ensures Exclusive(channel, pushes[p := x])
  {
  }

  lemma StepKeepsExclusive(s: State, a: Action)
    requires Attached(s) && Exclusive(s.channel, s.pushes) && Enabled(s, a)
    ensures Exclusive(Do(s, a).channel, Do(s, a).pushes)
  {
    var t := Do(s, a);
    match a
    case Take(p) => TakeKeepsExclusive(s.channel, s.pushes, p);
    case Refused(p) =>
    case Open(p, c) =>
      assert !Here(s, c);
      ChangeKeepsExclusive(s.channel, s.pushes, p, t.pushes[p]);
    case OpenFails(p) => ChangeKeepsExclusive(s.channel, s.pushes, p, t.pushes[p]);
    case Reuse(p) => ChangeKeepsExclusive(s.channel, s.pushes, p, t.pushes[p]);
    case SendFails(p) => ChangeKeepsExclusive(s.channel, s.pushes, p, t.pushes[p]);
    case AllSent(p) => ChangeKeepsExclusive(s.channel, s.pushes, p, t.pushes[p]);
    case Put(p) => PutKeepsExclusive(s.channel, s.pushes, p, s.pushes[p].sent);
    case BeginShutdown =>
    case Drain =>
    case Close =>
  }

  lemma {:induction false} RunInv(s: State, acts: seq<Action>)
    requires Inv(s) && CanRun(s, acts)
    ensures Inv(After(s, acts)) && After(s, acts).workers == s.workers
    decreases |acts|
  {
    if acts != [] {
      StepConserves(s, acts[0]);
      StepAttaches(s, acts[0]);
      StepKeepsExclusive(s, acts[0]);
      RunInv(Do(s, acts[0]), acts[1..]);
    }
  }

  // ------------------------------------------------------- what callers rely on

  /** In every interleaving of pushes with one shutdown: a push that has a token
      to put back finds room for it in an open channel; the channel is closed
      only when no push holds a token and after all tokens were drained; and two
      pushes never use the same stream. */
  lemma PoolIsSafe(workers: nat, acts: seq<Action>)
    requires CanRun(Init(workers), acts)
    ensures var s := After(Init(workers), acts);
            && |s.channel| + |Holders(s)| + |s.drained| == workers
            && (forall p :: p in s.pushes && s.pushes[p].Putting? ==> Enabled(s, Put(p)))
            && (s.closed || Enabled(s, Close) ==> Holders(s) == {} && s.channel == [])
            && (forall p, q :: p in s.pushes && q in s.pushes && s.pushes[p].Streaming? && s.pushes[p] == s.pushes[q] ==> p == q)
  {
    var s := After(Init(workers), acts);
    InitInv(workers);
    RunInv(Init(workers), acts);
    forall p | p in s.pushes && s.pushes[p].Putting?
      ensures Enabled(s, Put(p))
    {
      assert p in Holders(s);
    }
  }

  /** Never more open streams than workers. */
  lemma StreamsAreBounded(workers: nat, acts: seq<Action>)
    requires CanRun(Init(workers), acts)
    ensures |After(Init(workers), acts).live| <= workers
  {
    var s := After(Init(workers), acts);
    InitInv(workers);
    RunInv(Init(workers), acts);
    var a, b, d := ClientsIn(s.channel), ClientsHeld(s.pushes, Holders(s)), ClientsIn(s.drained);
    ClientsInBound(s.channel);
    ClientsInBound(s.drained);
    ClientsHeldBound(s.pushes, Holders(s));
    forall c | c in s.live
      ensures c in a + b + d
    {
      if Here(s, c) && Some(c) !in s.channel {
        var p :| p in s.pushes && TokenOf(s.pushes[p]) == Some(c);
        assert p in Holders(s);
      }
    }
    SubsetSize(s.live, a + b + d);
  }

  ghost function ClientsIn(ts: seq<Token>): set<Client> {
    set i | 0 <= i < |ts| && ts[i].Some? :: ts[i].value
  }

  lemma {:induction false} ClientsInBound(ts: seq<Token>)
    ensures |ClientsIn(ts)| <= |ts|
    ensures forall c :: c in ClientsIn(ts) <==> Some(c) in ts
  {
    if ts == [] {
      assert ClientsIn(ts) == {};
    } else {
      var n := |ts| - 1;
      ClientsInBound(ts[..n]);
      assert ClientsIn(ts) == ClientsIn(ts[..n]) + if ts[n].Some? then {ts[n].value} else {} by {
        assert ts == ts[..n] + [ts[n]];
      }
    }
  }

  ghost function ClientsHeld(pushes: map<PushId, Push>, ps: set<PushId>): set<Client>
    requires ps <= pushes.Keys
  {
    set p | p in ps && TokenOf(pushes[p]).Some? :: TokenOf(pushes[p]).value
  }

  lemma {:induction false} ClientsHeldBound(pushes: map<PushId, Push>, ps: set<PushId>)
    requires ps <= pushes.Keys
    ensures |ClientsHeld(pushes, ps)| <= |ps|
    decreases ps
  {
    if ps == {} {
      assert ClientsHeld(pushes, ps) == {};
    } else {
      var p :| p in ps;
      ClientsHeldBound(pushes, ps - {p});
      assert ClientsHeld(pushes, ps) ==
             ClientsHeld(pushes, ps - {p}) + if TokenOf(pushes[p]).Some? then {TokenOf(pushes[p]).value} else {};
    }
  }

  lemma {:induction false} SubsetSize(x: set<Client>, y: set<Client>)
    requires x <= y
    ensures |x| <= |y|
    decreases x
  {
    if x != {} {
      var c :| c in x;
      SubsetSize(x - {c}, y - {c});
    }
  }

  /** A step with which an unfinished push can go on. */
  function Onward(x: Push, p: PushId): Action {
    match x
    case Got(t) => if t.None? then OpenFails(p) else Reuse(p)
    case Streaming(_) => AllSent(p)
    case Putting(_, _) => Put(p)
    case Finished(_) => Refused(p)
  }

  /** The pool never gets stuck: while a push is unfinished or shutdown has not
      closed the channel, one of them can move, and once it is closed every
      further push is refused. */
  lemma PoolNeverSticks(workers: nat, acts: seq<Action>, p: PushId)
    requires CanRun(Init(workers), acts)
    ensures var s := After(Init(workers), acts);
            && (p in Holders(s) ==> Enabled(s, Onward(s.pushes[p], p)))
            && (s.shutdown == Draining ==> Holders(s) != {} || Enabled(s, Drain) || Enabled(s, Close))
            && (p !in s.pushes && s.closed ==> Enabled(s, Refused(p)))
  {
    var s := After(Init(workers), acts);
    PoolIsSafe(workers, acts);
    InitInv(workers);
    RunInv(Init(workers), acts);
  }

  // --------------------------------------------------- streams come and stay

  /** The streams opened in a run. */
  function Opened(acts: seq<Action>): set<Client> {
    if acts == [] then {} else (if acts[0].Open? then {acts[0].c} else {}) + Opened(acts[1..])
  }

  /** The streams on which a send failed. */
  function Failed(s: State, acts: seq<Action>): set<Client>
    requires CanRun(s, acts)
    decreases |acts|
  {
    if acts == [] then {}
    else
      var a := acts[0];
      (if a.SendFails? then {s.pushes[a.p].client} else {}) + Failed(Do(s, a), acts[1..])
  }

  lemma {:induction false} StreamsFollow(s: State, acts: seq<Action>)
    requires CanRun(s, acts) && s.live <= s.created
    requires Attached(s)
    ensures var t := After(s, acts);
            && t.created == s.created + Opened(acts)
            && t.live == (s.live + Opened(acts)) - Failed(s, acts)
    decreases |acts|
  {
    if acts != [] {
      var a, t := acts[0], Do(s, acts[0]);
      StepAttaches(s, a);
      if a.SendFails? {
        assert TokenOf(s.pushes[a.p]) == Some(s.pushes[a.p].client);
        assert Here(s, s.pushes[a.p].client);
      }
      StreamsFollow(t, acts[1..]);
      NotReopened(t, acts[1..]);
    }
  }

  /** A stream that exists is not opened again. */
  lemma {:induction false} NotReopened(s: State, acts: seq<Action>)
    requires CanRun(s, acts)
    ensures Opened(acts) !! s.created
    decreases |acts|
  {
    if acts != [] {
      NotReopened(Do(s, acts[0]), acts[1..]);
    }
  }

  /** Only a failed send ends a stream: in every run the live streams are those
      opened on which none failed. As many streams are opened as there are
      workers and failures, at most: the others are reused. */
  lemma StreamsSurvive(workers: nat, acts: seq<Action>)
    requires CanRun(Init(workers), acts)
    ensures var s := After(Init(workers), acts);
            && s.created == Opened(acts)
            && s.live == Opened(acts) - Failed(Init(workers), acts)
            && |Opened(acts)| <= workers + |Failed(Init(workers), acts)|
  {
    InitInv(workers);
    StreamsFollow(Init(workers), acts);
    StreamsAreBounded(workers, acts);
    var all, failed := Opened(acts), Failed(Init(workers), acts);
    SubsetSize(all, (all - failed) + failed);
  }

  /** Between pushes, before shutdown, every live stream waits in the channel. */
  lemma IdleStreamsAreBack(workers: nat, acts: seq<Action>, c: Client)
    requires CanRun(Init(workers), acts) && Holders(After(Init(workers), acts)) == {}
    requires BeginShutdown !in acts && c in After(Init(workers), acts).live
    ensures Some(c) in After(Init(workers), acts).channel
  {
    var s := After(Init(workers), acts);
    InitInv(workers);
    RunInv(Init(workers), acts);
    NotShut(Init(workers), acts);
    forall p | p in s.pushes
      ensures TokenOf(s.pushes[p]) == None
    {
      assert p !in Holders(s);
    }
  }

  lemma {:induction false} NotShut(s: State, acts: seq<Action>)
    requires CanRun(s, acts) && s.shutdown == NotCalled && BeginShutdown !in acts
    ensures After(s, acts).shutdown == NotCalled
    decreases |acts|
  {
    if acts != [] {
      NotShut(Do(s, acts[0]), acts[1..]);
    }
  }

  /** What a push returns: success exactly if everything was sent, failure exactly
      if it was refused, got no stream or failed to send. */
  lemma {:induction false} OutcomeOfPush(s: State, acts: seq<Action>, p: PushId)
    requires CanRun(s, acts)
    ensures var t := After(s, acts);
            && (Succeeds(t, p) <==> Succeeds(s, p) || AllSent(p) in acts)
            && (Fails(t, p) <==> Fails(s, p) || Refused(p) in acts || OpenFails(p) in acts || SendFails(p) in acts)
            && (p in t.pushes && t.pushes[p].Finished? <==>
                  (p in s.pushes && s.pushes[p].Finished?) || Put(p) in acts || Refused(p) in acts)
    decreases |acts|
  {
    if acts != [] {
      var a := acts[0];
      assert forall b :: b in acts <==> b == a || b in acts[1..];
      OutcomeStep(s, a, p);
      OutcomeOfPush(Do(s, a), acts[1..], p);
    }
  }

  lemma OutcomeStep(s: State, a: Action, p: PushId)
    requires Enabled(s, a)
    ensures Succeeds(Do(s, a), p) <==> Succeeds(s, p) || a == AllSent(p)
    ensures Fails(Do(s, a), p) <==> Fails(s, p) || a == Refused(p) || a == OpenFails(p) || a == SendFails(p)
    ensures p in Do(s, a).pushes && Do(s, a).pushes[p].Finished? <==>
              (p in s.pushes && s.pushes[p].Finished?) || a == Put(p) || a == Refused(p)
  {
  }

  predicate Succeeds(s: State, p: PushId) {
    p in s.pushes && (s.pushes[p].Putting? || s.pushes[p].Finished?) && s.pushes[p].sent
  }

  predicate Fails(s: State, p: PushId) {
    p in s.pushes && (s.pushes[p].Putting? || s.pushes[p].Finished?) && !s.pushes[p].sent
  }

  /** A push is over after four steps. */
  lemma {:induction false} PushIsShort(s: State, acts: seq<Action>, p: PushId)
    requires CanRun(s, acts)
    ensures StepsOf(acts, p) + StepsLeft(After(s, acts), p) <= StepsLeft(s, p)
    decreases |acts|
  {
    if acts != [] {
      PushIsShort(Do(s, acts[0]), acts[1..], p);
    }
  }

  function StepsLeft(s: State, p: PushId): nat {
    if p !in s.pushes then 4
    else match s.pushes[p]
      case Got(_) => 3
      case Streaming(_) => 2
      case Putting(_, _) => 1
      case Finished(_) => 0
  }

  predicate StepOf(a: Action, p: PushId) {
    !a.BeginShutdown? && !a.Drain? && !a.Close? && a.p == p
  }

  function StepsOf(acts: seq<Action>, p: PushId): nat {
    if acts == [] then 0 else (if StepOf(acts[0], p) then 1 else 0) + StepsOf(acts[1..], p)
  }

  /** The tokens put into the channel in a run ... */
  function Puts(s: State, acts: seq<Action>): seq<Token>
    requires CanRun(s, acts)
    decreases |acts|
  {
    if acts == [] then []
    else
      var a := acts[0];
      var rest := Puts(Do(s, a), acts[1..]);
      if a.Put? then [s.pushes[a.p].token] + rest else rest
  }

  /** ... and those pushes and shutdown got out of it. */
  function Gets(s: State, acts: seq<Action>): seq<Token>
    requires CanRun(s, acts)
    decreases |acts|
  {
    if acts == [] then []
    else
      var a := acts[0];
      var t := Do(s, a);
      var rest := Gets(t, acts[1..]);
      if a.Take? then [TokenOf(t.pushes[a.p])] + rest
      else if a.Drain? then [t.drained[|s.drained|]] + rest
      else rest
  }

  /** The channel hands tokens out in the order it got them. */
  lemma {:induction false} FirstInFirstOut(s: State, acts: seq<Action>)
    requires CanRun(s, acts)
    ensures s.channel + Puts(s, acts) == Gets(s, acts) + After(s, acts).channel
    decreases |acts|
  {
    if acts != [] {
      var a, t := acts[0], Do(s, acts[0]);
      FirstInFirstOut(t, acts[1..]);
      if a.Take? || a.Drain? {
        assert s.channel == [s.channel[0]] + t.channel;
        Shift([s.channel[0]], t.channel, Puts(t, acts[1..]));
        Shift([s.channel[0]], Gets(t, acts[1..]), After(t, acts[1..]).channel);
      } else if a.Put? {
        Shift(s.channel, [s.pushes[a.p].token], Puts(t, acts[1..]));
      }
    }
  }

  lemma Shift(a: seq<Token>, b: seq<Token>, c: seq<Token>)
    ensures (a + b) + c == a + (b + c)
  {
  }

  /** One worker: the second push goes on with the stream the first one opened. */
  lemma StreamIsReused(p: PushId, q: PushId, c: Client) returns (acts: seq<Action>, s: State)
    requires p != q
    ensures acts == [Take(p), Open(p, c), AllSent(p), Put(p), Take(q), Reuse(q)]
    ensures CanRun(Init(1), acts) && s == After(Init(1), acts)
    ensures s.pushes == map[p := Finished(true), q := Streaming(c)] && s.live == s.created == {c}
  {
    var init := Init(1);
    assert init.channel == [None];
    acts, s := [], init;
    Then(init, acts, Take(p));
    acts, s := acts + [Take(p)], Do(s, Take(p));
    assert s.channel == [];
    Then(init, acts, Open(p, c));
    acts, s := acts + [Open(p, c)], Do(s, Open(p, c));
    Then(init, acts, AllSent(p));
    acts, s := acts + [AllSent(p)], Do(s, AllSent(p));
    Then(init, acts, Put(p));
    acts, s := acts + [Put(p)], Do(s, Put(p));
    assert s.channel == [Some(c)];
    Then(init, acts, Take(q));
    acts, s := acts + [Take(q)], Do(s, Take(q));
    Then(init, acts, Reuse(q));
    acts, s := acts + [Reuse(q)], Do(s, Reuse(q));
  }
}
