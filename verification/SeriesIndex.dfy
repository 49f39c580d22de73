/** The index of time series by signature: addSample fills it, wrapTimeSeries
    empties it into a write request. It must agree with plain grouping of the
    samples by metric type and label set. */
module SeriesIndex {
  import opened Options
  import opened Seqs
  import Strings
  import opened PromLabels
  import opened LabelSets

  type UInt64 = n: int | 0 <= n < 0x1_0000_0000_0000_0000

  datatype Sample = Sample(value: real, timestamp: int)

  /** Nanoseconds to milliseconds. */
  function ConvertTimeStamp(t: UInt64): (r: int)
    ensures 0 <= r < 0x8000_0000_0000_0000
  {
    t / 1_000_000
  }

  lemma ConvertIsMonotone(s: UInt64, t: UInt64)
    requires s <= t
    ensures ConvertTimeStamp(s) <= ConvertTimeStamp(t)
  {
  }

  datatype TimeSeries = TimeSeries(labels: seq<Label>, samples: seq<Sample>)

  /** One call of addSample with non-nil arguments, with the sorted labels and
      the signature it computed. */
  datatype Event = Event(ty: MetricType, labels: seq<Label>, sorted: seq<Label>, sig: string, sample: Sample)

  ghost predicate Signed(e: Event) {
    e.sorted == SortByName(e.labels) && e.sig == Signature(e.ty, e.sorted)
  }

  /** A sample to be added: its labels by raw key, before the label map is walked,
      its value, and the time of its point in nanoseconds. */
  datatype Planned = Planned(ty: MetricType, content: map<string, Label>, value: real, nanos: UInt64)

  function SampleOf(p: Planned): Sample {
    Sample(p.value, ConvertTimeStamp(p.nanos))
  }

  /** The sample was added as planned, its labels listed in some order. */
  ghost predicate Realises(e: Event, p: Planned) {
    Signed(e) && e.ty == p.ty && e.sample == SampleOf(p) && IsListing(e.labels, p.content)
  }

  ghost predicate RealisesAll(es: seq<Event>, ps: seq<Planned>) {
    |es| == |ps| && forall i {:trigger Realises(es[i], ps[i])} :: 0 <= i < |es| ==> Realises(es[i], ps[i])
  }

  function Added(m: map<string, TimeSeries>, e: Event): map<string, TimeSeries> {
    if e.sig in m then m[e.sig := TimeSeries(m[e.sig].labels, m[e.sig].samples + [e.sample])]
    else m[e.sig := TimeSeries(e.sorted, [e.sample])]
  }

  function AddedAll(m: map<string, TimeSeries>, es: seq<Event>): map<string, TimeSeries> {
    if es == [] then m else Added(AddedAll(m, es[..|es| - 1]), es[|es| - 1])
  }

  class Index {
    var series: map<string, TimeSeries>
    ghost var planned: seq<Planned>  // what was added so far
    ghost var events: seq<Event>     // and with which label lists

    ghost predicate Valid()
      reads this
    {
      series == AddedAll(map[], events) && RealisesAll(events, planned)
    }

    constructor ()
      ensures Valid() && planned == []
    {
      series, planned, events := map[], [], [];
    }

    /** addSample; a nil sample or label slice leaves the index alone. `p` is what
        sample and labels were made from. */
    method AddSample(sample: Option<Sample>, labels: Option<seq<Label>>, ty: MetricType, ghost p: Planned)
      requires Valid()
      requires sample.Some? && labels.Some? ==> ty == p.ty && sample.value == SampleOf(p) && IsListing(labels.value, p.content)
      modifies this
      ensures Valid()
      ensures if sample.None? || labels.None? then
                series == old(series) && planned == old(planned) && events == old(events)
              else
                && planned == old(planned) + [p]
                && |events| == |old(events)| + 1 && old(events) <= events
                && events[|old(events)|].labels == labels.value
                && series == Added(old(series), events[|old(events)|])
    {
      if sample.None? || labels.None? {
        return;
      }
      var sig, sorted := TimeSeriesSignature(ty, labels.value);
      if sig in series {
        var ts := series[sig];
        series := series[sig := TimeSeries(ts.labels, ts.samples + [sample.value])];
      } else {
        series := series[sig := TimeSeries(sorted, [sample.value])];
      }
      ghost var e := Event(ty, labels.value, sorted, sig, sample.value);
      assert series == Added(old(series), e);
      assert Realises(e, p);
      LogStep(events, planned, e, p);
      events, planned := events + [e], planned + [p];
    }
  }

  lemma LogStep(es: seq<Event>, ps: seq<Planned>, e: Event, p: Planned)
    ensures AddedAll(map[], es + [e]) == Added(AddedAll(map[], es), e)
    ensures RealisesAll(es, ps) && Realises(e, p) ==> RealisesAll(es + [e], ps + [p])
  {
    assert (es + [e])[..|es|] == es;
  }

  // -------------------------------------------------- the index is a grouping

  ghost predicate InGroup(e: Event, ty: MetricType, labels: multiset<Label>) {
    e.ty == ty && multiset(e.labels) == labels
  }

  /** The samples of the given type and label set, in the order they were emitted. */
  ghost function SamplesLike(es: seq<Event>, ty: MetricType, labels: multiset<Label>): seq<Sample> {
    if es == [] then []
    else
      var e := es[|es| - 1];
      SamplesLike(es[..|es| - 1], ty, labels) + if InGroup(e, ty, labels) then [e.sample] else []
  }

  ghost predicate WellLabelled(e: Event) {
    Signed(e) && DistinctNames(e.labels) && DashFreeLabels(e.labels)
  }

  /** The series found under a sample's signature is that sample's group. */
  ghost predicate Agrees(m: map<string, TimeSeries>, es: seq<Event>, e: Event) {
    var group := SamplesLike(es, e.ty, multiset(e.labels));
    if e.sig in m then m[e.sig] == TimeSeries(e.sorted, group) && group != []
    else group == []
  }

  /** The signatures of two samples tell whether they belong together. */
  ghost predicate Faithful(e: Event, f: Event) {
    var same := e.ty == f.ty && multiset(e.labels) == multiset(f.labels);
    (e.sig == f.sig <==> same) && (same ==> e.sorted == f.sorted)
  }

  lemma WellLabelledIsFaithful(e: Event, f: Event)
    requires WellLabelled(e) && WellLabelled(f)
    ensures Faithful(e, f)
  {
    SignatureIdentifies(e.ty, e.labels, f.ty, f.labels);
  }

  lemma AgreesStep(m: map<string, TimeSeries>, es: seq<Event>, last: Event, e: Event)
    requires Faithful(e, last) && Agrees(m, es, e)
    ensures Agrees(Added(m, last), es + [last], e)
  {
    assert (es + [last])[..|es|] == es;
  }

  lemma {:induction false} FaithfulIndexIsGrouping(es: seq<Event>, e: Event)
    requires forall i {:trigger Faithful(e, es[i])} :: 0 <= i < |es| ==> Faithful(e, es[i])
    ensures Agrees(AddedAll(map[], es), es, e)
    decreases |es|
  {
    if es != [] {
      var init, last := es[..|es| - 1], es[|es| - 1];
      forall i | 0 <= i < |init|
        ensures Faithful(e, init[i])
      {
        assert Faithful(e, es[i]);
      }
      FaithfulIndexIsGrouping(init, e);
      assert Faithful(e, es[|es| - 1]);
      AgreesStep(AddedAll(map[], init), init, last, e);
      assert es == init + [last];
    }
  }

  /** After any run of addSample with dash-free labels of distinct names, every
      type and label set has its own series, which holds exactly the samples
      emitted for it, in order; a type and label set never emitted has none. */
  lemma IndexIsGrouping(es: seq<Event>, e: Event)
    requires WellLabelled(e) && forall i {:trigger WellLabelled(es[i])} :: 0 <= i < |es| ==> WellLabelled(es[i])
    ensures Agrees(AddedAll(map[], es), es, e)
  {
    forall i | 0 <= i < |es|
      ensures Faithful(e, es[i])
    {
      assert WellLabelled(es[i]);
      WellLabelledIsFaithful(e, es[i]);
    }
    FaithfulIndexIsGrouping(es, e);
  }

  function Sigs(es: seq<Event>): set<string> {
    if es == [] then {} else Sigs(es[..|es| - 1]) + {es[|es| - 1].sig}
  }

  /** And nothing else is in the index. */
  lemma {:induction false} IndexHoldsOnlyEvents(es: seq<Event>)
    ensures AddedAll(map[], es).Keys == Sigs(es)
  {
    if es != [] {
      IndexHoldsOnlyEvents(es[..|es| - 1]);
    }
  }

  // ----------------------------------------- when the index is not a grouping

  /** The samples with the signature, in the order they were emitted. */
  ghost function SamplesUnder(es: seq<Event>, sig: string): seq<Sample> {
    if es == [] then []
    else SamplesUnder(es[..|es| - 1], sig) + if es[|es| - 1].sig == sig then [es[|es| - 1].sample] else []
  }

  /** Position of the first sample with the signature, or the length. */
  function FirstUnder(es: seq<Event>, sig: string): (i: nat)
    ensures i <= |es| && (i < |es| ==> es[i].sig == sig)
    ensures forall j :: 0 <= j < i ==> es[j].sig != sig
  {
    if es == [] then 0
    else
      var i := FirstUnder(es[..|es| - 1], sig);
      if i < |es| - 1 || es[|es| - 1].sig == sig then i else |es|
  }

  /** What the code computes on any run, collisions or not: one series for each
      signature, with all samples of that signature in order, under the labels
      of the first. */
  lemma {:induction false} SeriesUnderSignature(es: seq<Event>, sig: string)
    ensures var m, i := AddedAll(map[], es), FirstUnder(es, sig);
            && (sig in m <==> i < |es|)
            && (sig in m ==> m[sig] == TimeSeries(es[i].sorted, SamplesUnder(es, sig)))
  {
    if es != [] {
      SeriesUnderSignature(es[..|es| - 1], sig);
      UnderNothing(es[..|es| - 1], sig);
    }
  }

  lemma {:induction false} UnderNothing(es: seq<Event>, sig: string)
    ensures FirstUnder(es, sig) == |es| ==> SamplesUnder(es, sig) == []
  {
    if es != [] {
      UnderNothing(es[..|es| - 1], sig);
    }
  }

  /** If all samples with `e`'s signature belong to its group, and another member
      of the group has a different signature, the series is too short. */
  lemma {:induction false} SeriesWithinGroup(es: seq<Event>, e: Event)
    requires forall i :: 0 <= i < |es| && es[i].sig == e.sig ==> InGroup(es[i], e.ty, multiset(e.labels))
    ensures var under, group := |SamplesUnder(es, e.sig)|, |SamplesLike(es, e.ty, multiset(e.labels))|;
            && under <= group
            && (under == group ==> forall i :: 0 <= i < |es| && InGroup(es[i], e.ty, multiset(e.labels)) ==> es[i].sig == e.sig)
  {
    if es != [] {
      SeriesWithinGroup(es[..|es| - 1], e);
    }
  }

  lemma SameSortIsSame(e: Event, f: Event)
    requires Signed(e) && Signed(f) && e.sig == f.sig && e.sorted == f.sorted
    ensures e.ty == f.ty && multiset(e.labels) == multiset(f.labels)
  {
    SortIsSort(e.labels);
    SortIsSort(f.labels);
    SameBodySameType(e.ty, f.ty, e.sorted);
  }

  ghost predicate AllSigned(es: seq<Event>) {
    forall i {:trigger Signed(es[i])} :: 0 <= i < |es| ==> Signed(es[i])
  }

  /** Every sample's series is its group. */
  ghost predicate IsGrouped(es: seq<Event>) {
    forall i {:trigger Agrees(AddedAll(map[], es), es, es[i])} :: 0 <= i < |es| ==> Agrees(AddedAll(map[], es), es, es[i])
  }

  ghost predicate AllFaithful(es: seq<Event>) {
    forall i, j {:trigger Faithful(es[i], es[j])} :: 0 <= i < |es| && 0 <= j < |es| ==> Faithful(es[i], es[j])
  }

  lemma SameSignatureIsSame(es: seq<Event>, i: nat, j: nat)
    requires AllSigned(es) && IsGrouped(es) && i < |es| && j < |es| && es[i].sig == es[j].sig
    ensures es[i].sorted == es[j].sorted && InGroup(es[j], es[i].ty, multiset(es[i].labels))
  {
    assert Signed(es[i]) && Signed(es[j]);
    assert Agrees(AddedAll(map[], es), es, es[i]) && Agrees(AddedAll(map[], es), es, es[j]);
    SeriesUnderSignature(es, es[i].sig);
    SameSortIsSame(es[i], es[j]);
  }

  lemma GroupedIsFaithful(es: seq<Event>, i: nat, j: nat)
    requires AllSigned(es) && IsGrouped(es) && i < |es| && j < |es|
    ensures Faithful(es[i], es[j])
  {
    var e := es[i];
    forall k | 0 <= k < |es| && es[k].sig == e.sig
      ensures es[k].sorted == e.sorted && InGroup(es[k], e.ty, multiset(e.labels))
    {
      SameSignatureIsSame(es, i, k);
    }
    assert Agrees(AddedAll(map[], es), es, es[i]);
    SeriesUnderSignature(es, e.sig);
    SeriesWithinGroup(es, e);
    assert InGroup(es[j], e.ty, multiset(e.labels)) ==> es[j].sig == e.sig;
  }

  /** For every run of addSample: the index agrees with plain grouping by type
      and label set if and only if, among the samples added, equal signatures
      mean equal type and label set, and conversely, with equally sorted labels. */
  lemma IndexIsGroupingIff(es: seq<Event>)
    requires AllSigned(es)
    ensures IsGrouped(es) <==> AllFaithful(es)
  {
    if IsGrouped(es) {
      forall i, j | 0 <= i < |es| && 0 <= j < |es|
        ensures Faithful(es[i], es[j])
      {
        GroupedIsFaithful(es, i, j);
      }
    }
    if AllFaithful(es) {
      forall i | 0 <= i < |es|
        ensures Agrees(AddedAll(map[], es), es, es[i])
      {
        FaithfulIndexIsGrouping(es, es[i]);
      }
    }
  }

  function EventFor(t: MetricType, labels: seq<Label>, x: Sample): Event {
    Event(t, labels, SortByName(labels), Signature(t, SortByName(labels)), x)
  }

  /** A run that fails: a value with dashes merges two label sets. */
  lemma DashesMerge(t: MetricType, x: Sample, y: Sample)
    ensures var a, b := EventFor(t, Merged(), x), EventFor(t, Split(), y);
            && AllSigned([a, b]) && !IsGrouped([a, b])
            && AddedAll(map[], [a, b]) == map[a.sig := TimeSeries(Merged(), [x, y])]
  {
    DashesCollide(t);
    Collision(EventFor(t, Merged(), x), EventFor(t, Split(), y));
  }

  lemma Collision(a: Event, b: Event)
    requires Signed(a) && Signed(b) && a.sig == b.sig && multiset(a.labels) != multiset(b.labels)
    ensures AllSigned([a, b]) && !IsGrouped([a, b])
    ensures AddedAll(map[], [a, b]) == map[a.sig := TimeSeries(a.sorted, [a.sample, b.sample])]
  {
    var es := [a, b];
    assert !Faithful(es[0], es[1]);
    IndexIsGroupingIff(es);
    TwoAdded(a, b);
  }

  lemma TwoAdded(a: Event, b: Event)
    requires a.sig == b.sig
    ensures AddedAll(map[], [a, b]) == map[a.sig := TimeSeries(a.sorted, [a.sample, b.sample])]
  {
    assert [a, b][..1] == [a] && [a][..0] == [];
    assert AddedAll(map[], [a]) == Added(map[], a);
    assert AddedAll(map[], [a, b]) == Added(AddedAll(map[], [a]), b);
    assert [a.sample] + [b.sample] == [a.sample, b.sample];
  }

  // ------------------------------------------------ every sample is sent once

  function Samples(es: seq<Event>): seq<Sample> {
    if es == [] then [] else Samples(es[..|es| - 1]) + [es[|es| - 1].sample]
  }

  function Flat(ts: seq<TimeSeries>): seq<Sample> {
    if ts == [] then [] else Flat(ts[..|ts| - 1]) + ts[|ts| - 1].samples
  }

  ghost predicate Emitted(ts: seq<TimeSeries>, m: map<string, TimeSeries>, order: seq<string>) {
    Walk(order, m.Keys) && |ts| == |order| && forall i :: 0 <= i < |ts| ==> ts[i] == m[order[i]]
  }

  /** wrapTimeSeries: an error for an empty index, otherwise each series once,
      in the order the Go map is walked. */
  method WrapTimeSeries(m: map<string, TimeSeries>) returns (r: Option<seq<TimeSeries>>, ghost order: seq<string>)
    ensures r.None? <==> m == map[]
    ensures r.Some? ==> Emitted(r.value, m, order)
  {
    order := [];
    if |m| == 0 {
      return None, [];
    }
    var ts := [];
    var rest := m.Keys;
    while rest != {}
      invariant rest <= m.Keys && Walk(order, m.Keys - rest)
      invariant |ts| == |order| && forall i :: 0 <= i < |ts| ==> order[i] in m && ts[i] == m[order[i]]
      decreases rest
    {
      var k :| k in rest;
      ts, order, rest := ts + [m[k]], order + [k], rest - {k};
    }
    r := Some(ts);
  }

  /** The samples of the request, order aside. */
  ghost function Bag(ts: seq<TimeSeries>): multiset<Sample> {
    if ts == [] then multiset{} else Bag(ts[..|ts| - 1]) + multiset(ts[|ts| - 1].samples)
  }

  lemma {:induction false} BagIsFlat(ts: seq<TimeSeries>)
    ensures multiset(Flat(ts)) == Bag(ts)
  {
    if ts != [] {
      BagIsFlat(ts[..|ts| - 1]);
    }
  }

  /** `rest` is `ts` without its element at `i`. */
  ghost predicate Without(ts: seq<TimeSeries>, i: nat, rest: seq<TimeSeries>) {
    && i < |ts| == |rest| + 1
    && (forall j :: 0 <= j < i ==> rest[j] == ts[j])
    && (forall j :: i <= j < |rest| ==> rest[j] == ts[j + 1])
  }

  lemma {:induction false} BagWithout(ts: seq<TimeSeries>, i: nat, rest: seq<TimeSeries>)
    requires Without(ts, i, rest)
    ensures Bag(ts) == Bag(rest) + multiset(ts[i].samples)
    decreases |ts|
  {
    var n := |ts| - 1;
    if i == n {
      assert rest == ts[..n];
    } else {
      BagWithout(ts[..n], i, rest[..n - 1]);
    }
  }

  lemma EmittedWithout(ts: seq<TimeSeries>, m: map<string, TimeSeries>, order: seq<string>, k: string)
    returns (ts': seq<TimeSeries>, order': seq<string>)
    requires Emitted(ts, m, order) && k in m
    ensures Emitted(ts', m - {k}, order')
    ensures Bag(ts) == Bag(ts') + multiset(m[k].samples)
  {
    assert k in order;
    var i :| 0 <= i < |order| && order[i] == k;
    ts', order' := ts[..i] + ts[i + 1..], order[..i] + order[i + 1..];
    WalkWithout(order, m.Keys, i);
    assert (m - {k}).Keys == m.Keys - {k};
    BagWithout(ts, i, ts');
  }

  /** However the index is walked, the request holds every sample ever added,
      as often as it was added. */
  lemma EverySampleOnce(es: seq<Event>, ts: seq<TimeSeries>, order: seq<string>)
    requires Emitted(ts, AddedAll(map[], es), order)
    ensures multiset(Flat(ts)) == multiset(Samples(es))
  {
    BagIsFlat(ts);
    BagOfEvents(es, ts, order);
  }

  lemma {:induction false} BagOfEvents(es: seq<Event>, ts: seq<TimeSeries>, order: seq<string>)
    requires Emitted(ts, AddedAll(map[], es), order)
    ensures Bag(ts) == multiset(Samples(es))
    decreases |es|
  {
    assert order != [] ==> order[0] in AddedAll(map[], es).Keys;
    if es != [] {
      var init, last := es[..|es| - 1], es[|es| - 1];
      var ts', order' := BeforeAdding(ts, AddedAll(map[], init), last, order);
      BagOfEvents(init, ts', order');
    }
  }

  /** A walk of the index after one addSample, seen as a walk before it. */
  lemma BeforeAdding(ts: seq<TimeSeries>, m: map<string, TimeSeries>, e: Event, order: seq<string>)
    returns (ts': seq<TimeSeries>, order': seq<string>)
    requires Emitted(ts, Added(m, e), order)
    ensures Emitted(ts', m, order')
    ensures Bag(ts) == Bag(ts') + multiset{e.sample}
  {
    ts', order' := EmittedWithout(ts, Added(m, e), order, e.sig);
    WithoutAdded(m, e);
    if e.sig in m {
      PutBack(ts', m, order', e.sig);
      BagSnoc(ts', m[e.sig]);
      ts', order' := ts' + [m[e.sig]], order' + [e.sig];
    }
  }

  lemma WithoutAdded(m: map<string, TimeSeries>, e: Event)
    ensures Added(m, e) - {e.sig} == m - {e.sig}
    ensures e.sig !in m ==> m - {e.sig} == m
    ensures multiset(Added(m, e)[e.sig].samples) ==
            (if e.sig in m then multiset(m[e.sig].samples) else multiset{}) + multiset{e.sample}
  {
  }

  lemma BagSnoc(ts: seq<TimeSeries>, t: TimeSeries)
    ensures Bag(ts + [t]) == Bag(ts) + multiset(t.samples)
  {
    assert (ts + [t])[..|ts|] == ts;
  }

  lemma PutBack(ts: seq<TimeSeries>, m: map<string, TimeSeries>, order: seq<string>, k: string)
    requires k in m && Emitted(ts, m - {k}, order)
    ensures Emitted(ts + [m[k]], m, order + [k])
  {
    assert (m - {k}).Keys == m.Keys - {k};
  }

  // -------------------------------------------------------------- time order

  ghost predicate InTimeOrder(s: seq<Sample>) {
    forall i, j :: 0 <= i < j < |s| ==> s[i].timestamp <= s[j].timestamp
  }

  /** If the samples with a signature arrive in time order, whatever arrives in
      between, the series under it is in time order, collisions or not. */
  lemma SeriesKeepsTimeOrder(es: seq<Event>, sig: string)
    requires forall i, j :: 0 <= i < j < |es| && es[i].sig == sig && es[j].sig == sig ==>
                              es[i].sample.timestamp <= es[j].sample.timestamp
    ensures sig in AddedAll(map[], es) ==> InTimeOrder(AddedAll(map[], es)[sig].samples)
  {
    UnderKeepsTimeOrder(es, sig);
    SeriesUnderSignature(es, sig);
  }

  /** If the points behind the samples of a signature come in nondecreasing
      nanoseconds, the series under it is in time order. */
  lemma PlannedKeepTimeOrder(es: seq<Event>, ps: seq<Planned>, sig: string)
    requires RealisesAll(es, ps)
    requires forall i, j :: 0 <= i < j < |es| && es[i].sig == sig && es[j].sig == sig ==> ps[i].nanos <= ps[j].nanos
    ensures sig in AddedAll(map[], es) ==> InTimeOrder(AddedAll(map[], es)[sig].samples)
  {
    forall i, j | 0 <= i < j < |es| && es[i].sig == sig && es[j].sig == sig
      ensures es[i].sample.timestamp <= es[j].sample.timestamp
    {
      assert Realises(es[i], ps[i]) && Realises(es[j], ps[j]);
      ConvertIsMonotone(ps[i].nanos, ps[j].nanos);
    }
    SeriesKeepsTimeOrder(es, sig);
  }

  lemma {:induction false} UnderKeepsTimeOrder(es: seq<Event>, sig: string)
    requires forall i, j :: 0 <= i < j < |es| && es[i].sig == sig && es[j].sig == sig ==>
                              es[i].sample.timestamp <= es[j].sample.timestamp
    ensures InTimeOrder(SamplesUnder(es, sig))
    ensures forall s :: s in SamplesUnder(es, sig) ==> exists i :: 0 <= i < |es| && es[i].sig == sig && es[i].sample == s
  {
    if es != [] {
      var init := es[..|es| - 1];
      UnderKeepsTimeOrder(init, sig);
      forall s | s in SamplesUnder(init, sig)
        ensures es[|es| - 1].sig == sig ==> s.timestamp <= es[|es| - 1].sample.timestamp
        ensures exists i :: 0 <= i < |es| && es[i].sig == sig && es[i].sample == s
      {
        var i :| 0 <= i < |init| && init[i].sig == sig && init[i].sample == s;
        assert es[i].sig == sig && es[i].sample == s;
      }
    }
  }

  // --------------------------------------------------------------- end to end

  /** The raw keys were sanitized to distinct names, and nothing has a dash. */
  ghost predicate CleanContent(m: map<string, Label>) {
    NamesApart(m) && forall k :: k in m ==> DashFree(m[k].name) && DashFree(m[k].value)
  }

  lemma CleanIsWellLabelled(e: Event, p: Planned)
    requires Realises(e, p) && CleanContent(p.content)
    ensures WellLabelled(e)
  {
    var order :| ListedBy(e.labels, p.content, order);
  }

  /** The request that carries the planned samples, however the maps were walked
      on the way: each sample travels in the series of its type and label set,
      with exactly the samples planned for them, in order, and its labels
      strictly ascend by name. */
  lemma RequestIsGrouped(es: seq<Event>, ps: seq<Planned>, ts: seq<TimeSeries>, order: seq<string>, i: nat)
    requires RealisesAll(es, ps) && Emitted(ts, AddedAll(map[], es), order)
    requires forall j {:trigger ps[j]} :: 0 <= j < |ps| ==> CleanContent(ps[j].content)
    requires i < |es|
    ensures exists k :: 0 <= k < |ts| && order[k] == es[i].sig
                        && ts[k] == TimeSeries(es[i].sorted, SamplesLike(es, es[i].ty, multiset(es[i].labels)))
    ensures forall a, b :: 0 <= a < b < |es[i].sorted| ==> Strings.Less(es[i].sorted[a].name, es[i].sorted[b].name)
  {
    forall j | 0 <= j < |es|
      ensures WellLabelled(es[j])
    {
      assert Realises(es[j], ps[j]);
      CleanIsWellLabelled(es[j], ps[j]);
    }
    assert WellLabelled(es[i]);
    IndexIsGrouping(es, es[i]);
    DistinctSortIsStrict(es[i].labels);
    InOwnGroup(es, i);
    assert es[i].sig in order;
  }

  lemma {:induction false} InOwnGroup(es: seq<Event>, i: nat)
    requires i < |es|
    ensures SamplesLike(es, es[i].ty, multiset(es[i].labels)) != []
    decreases |es|
  {
    if i < |es| - 1 {
      InOwnGroup(es[..|es| - 1], i);
    }
  }
}
