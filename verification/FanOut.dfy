/** The cloning fan-out connector: every consumer but the last gets a clone of
    the data, the last one the original. Consumers change what they are given in
    any way they like, and may keep it and change it again at any later time.

    The data is a tree of attribute values on the heap and the clone its deep
    copy. What the consumers do and answer is up to them: their answers are
    given as a list, their changes overwrite every object they were handed. */
module FanOut {
  import opened Options
  import opened ComponentErrors
  import opened AttributeSlots
  import opened PData

  /** What a consumer was called with: the data, the objects it is made of, and
      how it read at that moment. */
  datatype Call = Call(consumer: nat, data: AnyValue, repr: set<object>, seen: Value)

  function Errors(answers: seq<Option<string>>): seq<string> {
    if answers == [] then []
    else
      var init, r := Errors(answers[..|answers| - 1]), answers[|answers| - 1];
      if r.None? then init else init + [r.value]
  }

  lemma {:induction false} NoErrors(answers: seq<Option<string>>)
    ensures Errors(answers) == [] <==> forall i :: 0 <= i < |answers| ==> answers[i].None?
  {
    if answers != [] {
      var init := answers[..|answers| - 1];
      NoErrors(init);
      assert forall i :: 0 <= i < |init| ==> init[i] == answers[i];
    }
  }

  /** Errors are kept in the order of the consumers. */
  lemma {:induction false} ErrorsInOrder(a: seq<Option<string>>, b: seq<Option<string>>)
    ensures Errors(a + b) == Errors(a) + Errors(b)
    decreases |b|
  {
    if b == [] {
      assert a + b == a;
    } else {
      ErrorsInOrder(a, b[..|b| - 1]);
      assert (a + b)[..|a + b| - 1] == a + b[..|b| - 1];
    }
  }

  lemma OneAnswer(e: string)
    ensures Errors([None]) == [] && Errors([Some(e)]) == [e]
  {
    var none: seq<Option<string>>, some: seq<Option<string>> := [None], [Some(e)];
    assert none[..0] == [] && some[..0] == [];
  }

  lemma ErrorsStep(answers: seq<Option<string>>, i: nat)
    requires i < |answers|
    ensures Errors(answers[..i + 1]) ==
            if answers[i].None? then Errors(answers[..i]) else Errors(answers[..i]) + [answers[i].value]
  {
    assert answers[..i + 1][..i] == answers[..i];
  }

  /** One consumer at work on its argument. */
  method Invoke(i: nat, answer: Option<string>, data: AnyValue, ghost shape: Shape)
    returns (err: Option<string>, ghost call: Call)
    requires Matches(data, shape)
    modifies Repr(shape)
    ensures err == answer && call == Call(i, data, Repr(shape), Val(shape))
  {
    call := Call(i, data, Repr(shape), Val(shape));
    modify Repr(shape);
    err := answer;
  }

  /** One consumer at work on a clone, which the earlier ones cannot reach. */
  method InvokeOnClone(i: nat, answer: Option<string>, data: AnyValue, ghost shape: Shape, ghost given: set<object>)
    returns (err: Option<string>, ghost call: Call)
    requires Matches(data, shape) && Copyable(shape, []) && given !! Repr(shape)
    modifies given
    ensures err == answer && call.consumer == i && call.seen == Val(shape)
    ensures fresh(call.repr) && Matches(data, shape)
  {
    var clone; ghost var cs;
    clone, cs := Clone(data, shape);
    assert Repr(cs) !! given + Repr(shape);
    modify given;
    assert Matches(clone, cs) && Matches(data, shape);
    err, call := Invoke(i, answer, clone, cs);
  }

  /** The calls made so far: in order, each on objects of its own, all of them in
      `given`, and each saw the value `v`. */
  ghost predicate Isolated(calls: seq<Call>, given: set<object>, v: Value) {
    && (forall i :: 0 <= i < |calls| ==> calls[i].consumer == i && calls[i].seen == v && calls[i].repr <= given)
    && (forall i, j :: 0 <= i < j < |calls| ==> calls[i].repr !! calls[j].repr)
  }

  /** ConsumeTraces, ConsumeMetrics and ConsumeLogs. Before every call, all data
      handed out earlier is overwritten at will; still each consumer is called
      once, in order, and finds what the caller passed in. */
  method Consume(answers: seq<Option<string>>, data: AnyValue, ghost shape: Shape)
    returns (err: Option<string>, ghost calls: seq<Call>)
    requires Matches(data, shape) && Copyable(shape, [])
    modifies Repr(shape)
    ensures |calls| == |answers|
    ensures forall i :: 0 <= i < |calls| ==> calls[i].consumer == i && calls[i].seen == Val(shape)
    ensures forall i, j :: 0 <= i < j < |calls| ==> calls[i].repr !! calls[j].repr
    ensures forall i :: 0 <= i < |calls| - 1 ==> fresh(calls[i].repr)
    ensures calls != [] ==> calls[|calls| - 1].data == data && calls[|calls| - 1].repr == Repr(shape)
    ensures answers == [] ==> Matches(data, shape)
    ensures err.None? <==> forall i :: 0 <= i < |answers| ==> answers[i].None?
    ensures err == CombineErrors(Errors(answers))
  {
    if |answers| == 0 {
      return None, [];
    }
    var n := |answers| - 1;
    var errs; ghost var given;
    errs, calls, given := ConsumeClones(answers[..n], data, shape);
    modify given;
    var e; ghost var call;
    e, call := Invoke(n, answers[n], data, shape);
    calls := calls + [call];
    if e.Some? {
      errs := errs + [e.value];
    }
    NoErrors(answers);
    err := CombineErrors(errs);
  }

  /** The calls on clones. */
  method ConsumeClones(answers: seq<Option<string>>, data: AnyValue, ghost shape: Shape)
    returns (errs: seq<string>, ghost calls: seq<Call>, ghost given: set<object>)
    requires Matches(data, shape) && Copyable(shape, [])
    ensures |calls| == |answers| && errs == Errors(answers)
    ensures Isolated(calls, given, Val(shape)) && fresh(given)
  {
    errs, calls, given := [], [], {};
    for i := 0 to |answers|
      invariant |calls| == i && errs == Errors(answers[..i])
      invariant Isolated(calls, given, Val(shape)) && fresh(given)
    {
      var e; ghost var call;
      e, call := InvokeOnClone(i, answers[i], data, shape, given);
      calls, given := calls + [call], given + call.repr;
      ErrorsStep(answers, i);
      if e.Some? {
        errs := errs + [e.value];
      }
    }
    assert answers[..|answers|] == answers;
  }
}
