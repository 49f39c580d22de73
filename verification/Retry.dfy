/** The retry loop of the export pipeline.

    What the world answers is a script of attempts: for each one how long the
    send took, which items reached the backend, what the sender returned, what
    the backoff said and how the wait ended. Every finite run of the loop is the
    loop on some script; a run that never ends is one that is still pending on
    every prefix. */
module Retry {
  import opened Options

  type Item = nat

  /** Only trace requests shrink on a partial error; metrics and logs requests
      return themselves. */
  datatype Kind = Traces | Other

  datatype Request = Request(kind: Kind, items: multiset<Item>)

  /** An error as the loop sees it: the type of its outermost value. */
  datatype SendError = Permanent | Partial(failed: multiset<Item>) | Throttle(delay: int) | Transient

  datatype Reply = Reply(reported: nat, error: Option<SendError>)

  datatype Backoff = GiveUp | Delay(d: nat)

  datatype Wake = TimerFired | Cancelled | Interrupted

  datatype Attempt = Attempt(took: nat, delivered: multiset<Item>, reply: Reply, backoff: Backoff, wake: Wake, wokeAt: nat)

  datatype RetryError = Plain(e: SendError) | MaxElapsed(e: SendError) | WasCancelled(e: SendError) | WasInterrupted(e: SendError)

  datatype Outcome = Pending(req: Request) | Returned(dropped: nat, error: Option<RetryError>)

  function Max(x: int, y: int): int {
    if x < y then y else x
  }

  /** request.onPartialError */
  function OnPartialError(req: Request, failed: multiset<Item>): Request {
    if req.kind == Traces then Request(Traces, failed) else req
  }

  // ----------------------------------------------------------------- the loop

  /** What is left to be sent after a failed attempt. */
  function Remaining(req: Request, e: SendError): Request {
    if e.Partial? then OnPartialError(req, e.failed) else req
  }

  function Step(req: Request, a: Attempt): Outcome {
    if a.reply.error.None? then Returned(a.reply.reported, None)
    else
      var e := a.reply.error.value;
      var rest := Remaining(req, e);
      if e == Permanent then Returned(a.reply.reported, Some(Plain(e)))
      else if a.backoff.GiveUp? then Returned(|rest.items|, Some(MaxElapsed(e)))
      else match a.wake
        case Cancelled => Returned(|rest.items|, Some(WasCancelled(e)))
        case Interrupted => Returned(|rest.items|, Some(WasInterrupted(e)))
        case TimerFired => Pending(rest)
  }

  function Run(req: Request, script: seq<Attempt>): Outcome
    decreases script
  {
    if script == [] then Pending(req)
    else
      var s := Step(req, script[0]);
      if s.Returned? then s else Run(s.req, script[1..])
  }

  /** How many attempts are made. */
  function Used(req: Request, script: seq<Attempt>): (n: nat)
    ensures n <= |script|
    decreases script
  {
    if script == [] then 0
    else
      var s := Step(req, script[0]);
      1 + if s.Returned? then 0 else Used(s.req, script[1..])
  }

  /** All items that reached the backend, as often as they did. */
  function Delivered(req: Request, script: seq<Attempt>): multiset<Item>
    decreases script
  {
    if script == [] then multiset{}
    else
      var s := Step(req, script[0]);
      script[0].delivered + if s.Returned? then multiset{} else Delivered(s.req, script[1..])
  }

  /** retrySender.send. With retry disabled the one answer is passed on. */
  method Send(enabled: bool, req: Request, script: seq<Attempt>) returns (r: Outcome)
    ensures enabled ==> r == Run(req, script)
    ensures !enabled ==> r == if script == [] then Pending(req) else
                           Returned(script[0].reply.reported,
                                    if script[0].reply.error.None? then None else Some(Plain(script[0].reply.error.value)))
  {
    if !enabled {
      if script == [] {
        return Pending(req);
      }
      var reply := script[0].reply;
      return Returned(reply.reported, if reply.error.None? then None else Some(Plain(reply.error.value)));
    }
    var cur := req;
    for i := 0 to |script|
      invariant Run(req, script) == Run(cur, script[i..])
    {
      var a := script[i];
      assert script[i..][0] == a && script[i..][1..] == script[i + 1..];
      if a.reply.error.None? {
        return Returned(a.reply.reported, None);
      }
      var err := a.reply.error.value;
      if err == Permanent {
        return Returned(a.reply.reported, Some(Plain(err)));
      }
      if err.Partial? {
        cur := OnPartialError(cur, err.failed);
      }
      if a.backoff.GiveUp? {
        return Returned(|cur.items|, Some(MaxElapsed(err)));
      }
      match a.wake {
        case Cancelled => return Returned(|cur.items|, Some(WasCancelled(err)));
        case Interrupted => return Returned(|cur.items|, Some(WasInterrupted(err)));
        case TimerFired =>
      }
    }
    r := Pending(cur);
  }

  // ---------------------------------------------- when the loop ends, and how

  /** After this attempt the loop does not try again. */
  predicate Ends(a: Attempt) {
    || a.reply.error.None?
    || a.reply.error == Some(Permanent)
    || a.backoff == GiveUp
    || a.wake != TimerFired
  }

  /** The last partial error among the first `n` attempts, or -1. */
  function LastPartial(script: seq<Attempt>, n: nat): (j: int)
    requires n <= |script|
    ensures -1 <= j < n && (j >= 0 ==> IsPartial(script[j]))
    ensures forall k :: j < k < n ==> !IsPartial(script[k])
  {
    if n == 0 then -1 else if IsPartial(script[n - 1]) then n - 1 else LastPartial(script, n - 1)
  }

  predicate IsPartial(a: Attempt) {
    a.reply.error.Some? && a.reply.error.value.Partial?
  }

  /** What is still to be sent after `n` failed attempts: for traces what the last
      partial error named, for other requests everything. */
  function Unsent(req: Request, script: seq<Attempt>, n: nat): multiset<Item>
    requires n <= |script|
  {
    var j := LastPartial(script, n);
    if req.kind == Traces && j >= 0 then script[j].reply.error.value.failed else req.items
  }

  /** What the loop returns after attempt `i`, which ended it. */
  ghost predicate EndsWith(req: Request, script: seq<Attempt>, i: nat, o: Outcome)
    requires i < |script|
  {
    var a := script[i];
    && o.Returned?
    && (a.reply.error.None? ==> o == Returned(a.reply.reported, None))
    && (a.reply.error.Some? ==>
          var e, left := a.reply.error.value, |Unsent(req, script, i + 1)|;
          && (e == Permanent ==> o == Returned(a.reply.reported, Some(Plain(Permanent))))
          && (e != Permanent && a.backoff == GiveUp ==> o == Returned(left, Some(MaxElapsed(e))))
          && (e != Permanent && a.backoff.Delay? && a.wake == Cancelled ==> o == Returned(left, Some(WasCancelled(e))))
          && (e != Permanent && a.backoff.Delay? && a.wake == Interrupted ==> o == Returned(left, Some(WasInterrupted(e)))))
  }

  lemma {:induction false} UnsentAfterFirst(req: Request, script: seq<Attempt>, n: nat)
    requires 0 < n <= |script| && script[0].reply.error.Some?
    ensures Unsent(Remaining(req, script[0].reply.error.value), script[1..], n - 1) == Unsent(req, script, n)
    ensures Remaining(req, script[0].reply.error.value).kind == req.kind
  {
    PartialAfterFirst(script, n);
  }

  lemma {:induction false} PartialAfterFirst(script: seq<Attempt>, n: nat)
    requires 0 < n <= |script|
    ensures var j, k := LastPartial(script, n), LastPartial(script[1..], n - 1);
            j == if k >= 0 then k + 1 else if IsPartial(script[0]) then 0 else -1
  {
    if n > 1 {
      PartialAfterFirst(script, n - 1);
    }
  }

  /** The loop tries again exactly until the first attempt that ends it, and
      returns what that one calls for. */
  lemma {:induction false} EndsAtFirst(req: Request, script: seq<Attempt>, i: nat)
    requires i < |script| && Ends(script[i]) && forall k :: 0 <= k < i ==> !Ends(script[k])
    ensures Used(req, script) == i + 1 && EndsWith(req, script, i, Run(req, script))
    decreases i
  {
    if script[0].reply.error.Some? {
      UnsentAfterFirst(req, script, i + 1);
    }
    if i > 0 {
      assert !Ends(script[0]);
      EndsAtFirst(Step(req, script[0]).req, script[1..], i - 1);
    }
  }

  /** While no attempt ends it, it goes on, with what is still to be sent. */
  lemma {:induction false} GoesOn(req: Request, script: seq<Attempt>)
    requires forall k :: 0 <= k < |script| ==> !Ends(script[k])
    ensures Used(req, script) == |script|
    ensures Run(req, script) == Pending(Request(req.kind, Unsent(req, script, |script|)))
    decreases script
  {
    if script != [] {
      assert !Ends(script[0]);
      UnsentAfterFirst(req, script, |script|);
      GoesOn(Step(req, script[0]).req, script[1..]);
    }
  }

  // ------------------------------------------------------------- conservation

  /** The sender told the truth about this attempt: a plain failure delivers
      nothing, a count of dropped items is what was not delivered, and a partial
      error for a trace request names exactly the undelivered rest. Such an error
      carries traces, so for other requests it says nothing about the rest. */
  ghost predicate Honest(req: Request, a: Attempt) {
    && a.delivered <= req.items
    && if a.reply.error.None? || a.reply.error.value == Permanent then
         |a.delivered| + a.reply.reported == |req.items|
       else if a.reply.error.value.Partial? then
         req.kind == Traces ==> a.delivered + a.reply.error.value.failed == req.items
       else
         a.delivered == multiset{}
  }

  ghost predicate HonestRun(req: Request, script: seq<Attempt>)
    decreases script
  {
    script != [] ==>
      && Honest(req, script[0])
      && var s := Step(req, script[0]); s.Pending? ==> HonestRun(s.req, script[1..])
  }

  /** Items a partial error delivered although the request does not shrink, so
      that they are sent again or counted as dropped. */
  ghost function Repeated(req: Request, script: seq<Attempt>): nat
    decreases script
  {
    if script == [] then 0
    else
      var a, s := script[0], Step(req, script[0]);
      (if req.kind == Other && a.reply.error.Some? && a.reply.error.value.Partial? then |a.delivered| else 0)
      + if s.Returned? then 0 else Repeated(s.req, script[1..])
  }

  ghost function Left(o: Outcome): nat {
    match o
    case Pending(req) => |req.items|
    case Returned(dropped, _) => dropped
  }

  lemma OneAttempt(req: Request, a: Attempt)
    requires Honest(req, a)
    ensures |a.delivered| + Left(Step(req, a)) ==
            |req.items| + if req.kind == Other && a.reply.error.Some? && a.reply.error.value.Partial? then |a.delivered| else 0
    ensures Step(req, a).Pending? ==> Step(req, a).req.kind == req.kind
  {
    if a.reply.error.Some? && a.reply.error.value.Partial? {
      assert |a.delivered + a.reply.error.value.failed| == |a.delivered| + |a.reply.error.value.failed|;
    }
  }

  /** On every exit path, and at every point of an unfinished run: items
      delivered, plus items reported dropped (or still to be sent), are the
      items of the request plus those delivered in vain by partial errors. */
  lemma {:induction false} RunAccounts(req: Request, script: seq<Attempt>)
    requires HonestRun(req, script)
    ensures |Delivered(req, script)| + Left(Run(req, script)) == |req.items| + Repeated(req, script)
    decreases script
  {
    if script != [] {
      var s := Step(req, script[0]);
      OneAttempt(req, script[0]);
      if s.Pending? {
        RunAccounts(s.req, script[1..]);
        assert |script[0].delivered + Delivered(s.req, script[1..])| == |script[0].delivered| + |Delivered(s.req, script[1..])|;
      }
    }
  }

  /** Trace requests are conserved: every span is delivered or reported dropped. */
  lemma TracesAreConserved(req: Request, script: seq<Attempt>)
    requires req.kind == Traces && HonestRun(req, script)
    ensures |Delivered(req, script)| + Left(Run(req, script)) == |req.items|
  {
    TracesNeverRepeat(req, script);
    RunAccounts(req, script);
  }

  lemma {:induction false} TracesNeverRepeat(req: Request, script: seq<Attempt>)
    requires req.kind == Traces && HonestRun(req, script)
    ensures Repeated(req, script) == 0
    decreases script
  {
    if script != [] {
      OneAttempt(req, script[0]);
      var s := Step(req, script[0]);
      if s.Pending? {
        TracesNeverRepeat(s.req, script[1..]);
      }
    }
  }

  /** No span reaches the backend twice, and what is pending was never delivered. */
  lemma {:induction false} TracesAreNotDuplicated(req: Request, script: seq<Attempt>)
    requires req.kind == Traces && HonestRun(req, script)
    ensures Delivered(req, script) <= req.items
    ensures var o := Run(req, script); o.Pending? ==> Delivered(req, script) + o.req.items == req.items
    decreases script
  {
    if script != [] {
      var a, s := script[0], Step(req, script[0]);
      OneAttempt(req, a);
      if s.Pending? {
        TracesAreNotDuplicated(s.req, script[1..]);
        assert a.delivered + s.req.items == req.items;
      }
    }
  }

  /** A partial error that delivered something. */
  ghost predicate Vain(a: Attempt) {
    a.reply.error.Some? && a.reply.error.value.Partial? && a.delivered != multiset{}
  }

  /** Metrics and logs are conserved exactly when no partial error delivered anything. */
  lemma OthersAreConservedIff(req: Request, script: seq<Attempt>)
    requires req.kind == Other && HonestRun(req, script)
    ensures |Delivered(req, script)| + Left(Run(req, script)) == |req.items| <==>
            forall i :: 0 <= i < Used(req, script) ==> !Vain(script[i])
  {
    RunAccounts(req, script);
    RepeatedIsZeroIff(req, script);
  }

  lemma {:induction false} RepeatedIsZeroIff(req: Request, script: seq<Attempt>)
    requires req.kind == Other && HonestRun(req, script)
    ensures Repeated(req, script) == 0 <==> forall i :: 0 <= i < Used(req, script) ==> !Vain(script[i])
    decreases script
  {
    if script != [] {
      var s := Step(req, script[0]);
      OneAttempt(req, script[0]);
      if s.Pending? {
        RepeatedIsZeroIff(s.req, script[1..]);
        forall i | 0 < i < Used(req, script)
          ensures script[i] == script[1..][i - 1]
        {
        }
        assert forall j :: 0 <= j < Used(s.req, script[1..]) ==> script[1..][j] == script[j + 1];
      }
    }
  }

  /** Two data points, of which one is delivered by an attempt that ends in a
      partial error, whatever traces that carries, before the loop gives up: one
      delivered and two reported dropped. */
  lemma PartialCountsTwice(x: Item, y: Item, failed: multiset<Item>)
    ensures var req, e := Request(Other, multiset{x, y}), Partial(failed);
            var script := [Attempt(0, multiset{x}, Reply(0, Some(e)), GiveUp, TimerFired, 0)];
            && HonestRun(req, script)
            && |Delivered(req, script)| == 1 && Run(req, script) == Returned(2, Some(MaxElapsed(e)))
  {
    var req, e := Request(Other, multiset{x, y}), Partial(failed);
    var a := Attempt(0, multiset{x}, Reply(0, Some(e)), GiveUp, TimerFired, 0);
    assert |multiset{x, y}| == 2;
    assert Step(req, a) == Returned(2, Some(MaxElapsed(e)));
    assert Delivered(req, [a]) == multiset{x};
  }

  // --------------------------------------------------------------- the clock

  /** Settings and outside events: the elapsed-time limit (0 for none), the
      least delay the backoff hands out, when the stop channel is closed and
      when the request's context ends, all on the clock the backoff started. */
  datatype Env = Env(limit: nat, least: nat, stopAt: Option<nat>, cancelAt: Option<nat>)

  /** How long the loop means to wait: the backoff, or longer if the backend throttles. */
  function WaitFor(a: Attempt): nat
    requires a.reply.error.Some? && a.backoff.Delay?
  {
    if a.reply.error.value.Throttle? then Max(a.backoff.d, a.reply.error.value.delay) else a.backoff.d
  }

  /** The longer of the two delays, and no longer. */
  lemma WaitIsLarger(a: Attempt)
    requires a.reply.error.Some? && a.backoff.Delay?
    ensures WaitFor(a) >= a.backoff.d
    ensures a.reply.error.value.Throttle? ==> WaitFor(a) >= a.reply.error.value.delay
    ensures WaitFor(a) == a.backoff.d || a.reply.error.value == Throttle(WaitFor(a))
  {
  }

  /** Not ready before `t`. */
  function ReadyAt(event: Option<nat>, t: nat): Option<nat> {
    if event.None? then None else Some(Max(event.value, t))
  }

  predicate NoLater(t: nat, event: Option<nat>) {
    event.Some? ==> t <= event.value
  }

  /** The backoff gives up once the limit is exceeded and not before; the wait
      ends with the event that is ready first, any of several ready at once. */
  ghost predicate Obeys(env: Env, now: nat, a: Attempt) {
    var t := now + a.took;
    a.reply.error.Some? && a.reply.error.value != Permanent ==>
      && (a.backoff.GiveUp? <==> env.limit > 0 && t > env.limit)
      && (a.backoff.Delay? ==>
            && env.least <= a.backoff.d
            && var timer, stop, cancel := t + WaitFor(a), ReadyAt(env.stopAt, t), ReadyAt(env.cancelAt, t);
               match a.wake
               case TimerFired => NoLater(timer, stop) && NoLater(timer, cancel) && timer <= a.wokeAt
               case Interrupted => stop.Some? && stop.value <= timer && NoLater(stop.value, cancel)
               case Cancelled => cancel.Some? && cancel.value <= timer && NoLater(cancel.value, stop))
  }

  ghost predicate ObeyedRun(env: Env, now: nat, req: Request, script: seq<Attempt>)
    decreases script
  {
    script != [] ==>
      && Obeys(env, now, script[0])
      && var s := Step(req, script[0]); s.Pending? ==> ObeyedRun(env, script[0].wokeAt, s.req, script[1..])
  }

  function Bound(env: Env, now: nat): nat
    requires env.least > 0
  {
    if now > env.limit then 1 else (env.limit - now) / env.least + 2
  }

  lemma BoundStep(env: Env, now: nat, later: nat)
    requires env.least > 0 && now <= env.limit && now + env.least <= later
    ensures Bound(env, later) + 1 <= Bound(env, now)
  {
    if later <= env.limit {
      DivStep(env.limit - now, env.limit - later, env.least);
    }
  }

  lemma DivStep(x: nat, y: nat, d: nat)
    requires d > 0 && y + d <= x
    ensures y / d + 1 <= x / d
  {
    assert x == x / d * d + x % d && y == y / d * d + y % d;
    assert (x / d - y / d) * d > 0;
  }

  /** With a limit and a positive least delay the loop ends, after at most
      limit / least + 2 attempts, whatever the sender answers. */
  lemma {:induction false} RetryIsBounded(env: Env, now: nat, req: Request, script: seq<Attempt>)
    requires env.limit > 0 && env.least > 0 && ObeyedRun(env, now, req, script)
    ensures Used(req, script) <= Bound(env, now)
    ensures |script| >= Bound(env, now) ==> Run(req, script).Returned?
    decreases script
  {
    if script != [] {
      var a, s := script[0], Step(req, script[0]);
      if s.Pending? {
        assert now + a.took <= env.limit && now + env.least <= a.wokeAt;
        BoundStep(env, now, a.wokeAt);
        RetryIsBounded(env, a.wokeAt, s.req, script[1..]);
      }
    }
  }

  /** Start times of the attempts made. */
  function Starts(now: nat, req: Request, script: seq<Attempt>): (s: seq<nat>)
    ensures |s| == Used(req, script) && (s != [] ==> s[0] == now)
    decreases script
  {
    if script == [] then []
    else
      var s := Step(req, script[0]);
      [now] + if s.Returned? then [] else Starts(script[0].wokeAt, s.req, script[1..])
  }

  /** Between two attempts lie the send itself, the whole backoff delay and any
      throttle delay. */
  lemma {:induction false} WaitsAreServed(env: Env, now: nat, req: Request, script: seq<Attempt>, i: nat)
    requires ObeyedRun(env, now, req, script) && i + 1 < Used(req, script)
    ensures var s, a := Starts(now, req, script), script[i];
            && a.reply.error.Some? && a.backoff.Delay?
            && s[i + 1] >= s[i] + a.took + a.backoff.d
            && (a.reply.error.value.Throttle? ==> s[i + 1] >= s[i] + a.took + a.reply.error.value.delay)
    decreases script
  {
    if i > 0 {
      WaitsAreServed(env, script[0].wokeAt, Step(req, script[0]).req, script[1..], i - 1);
    }
  }

  /** Once the stop channel is closed at most one more attempt begins, so a
      request first tried after that is tried exactly once. */
  lemma {:induction false} OneAttemptAfterStop(env: Env, now: nat, req: Request, script: seq<Attempt>)
    requires env.least > 0 && env.stopAt.Some? && ObeyedRun(env, now, req, script)
    ensures forall i :: 0 <= i < |Starts(now, req, script)| - 1 ==> Starts(now, req, script)[i] < env.stopAt.value
    ensures script != [] && now >= env.stopAt.value ==> Used(req, script) == 1 && Run(req, script).Returned?
    decreases script
  {
    if script != [] {
      var a, s := script[0], Step(req, script[0]);
      if s.Pending? {
        assert now < env.stopAt.value;
        OneAttemptAfterStop(env, a.wokeAt, s.req, script[1..]);
      }
    }
  }
}
