/** Span counts: the plain count of a batch, and the counts by service that the
    processors report when telemetry is detailed. */
module SpanCounts {
  import opened Options
  import opened Seqs
  import opened AttributeSlots

  /** Resource spans: the resource's attributes, which must not be nil, and for
      each instrumentation library (None for a nil pointer) its number of spans. */
  datatype ResourceSpans = ResourceSpans(attributes: seq<Slot>, libraries: seq<Option<nat>>)

  type Traces = seq<Option<ResourceSpans>>

  // --------------------------------------------------------------- SpanCount

  function LibraryCount(libs: seq<Option<nat>>): nat {
    if libs == [] then 0
    else LibraryCount(libs[..|libs| - 1]) + if libs[|libs| - 1].None? then 0 else libs[|libs| - 1].value
  }

  function SpanTotal(td: Traces): nat {
    if td == [] then 0
    else SpanTotal(td[..|td| - 1]) + if td[|td| - 1].None? then 0 else LibraryCount(td[|td| - 1].value.libraries)
  }

  /** Traces.SpanCount */
  method SpanCount(td: Traces) returns (n: nat)
    ensures n == SpanTotal(td)
  {
    n := 0;
    for i := 0 to |td|
      invariant n == SpanTotal(td[..i])
    {
      assert td[..i + 1][..i] == td[..i];
      if td[i].None? {
        continue;
      }
      var libs := td[i].value.libraries;
      ghost var start := n;
      for j := 0 to |libs|
        invariant n == start + LibraryCount(libs[..j])
      {
        assert libs[..j + 1][..j] == libs[..j];
        if libs[j].None? {
          continue;
        }
        n := n + libs[j].value;
      }
      assert libs[..|libs|] == libs;
    }
    assert td[..|td|] == td;
  }

  /** Counts add up over libraries ... */
  lemma {:induction false} LibrariesAddUp(a: seq<Option<nat>>, b: seq<Option<nat>>)
    ensures LibraryCount(a + b) == LibraryCount(a) + LibraryCount(b)
    decreases |b|
  {
    if b == [] {
      assert a + b == a;
    } else {
      LibrariesAddUp(a, b[..|b| - 1]);
      assert (a + b)[..|a + b| - 1] == a + b[..|b| - 1];
    }
  }

  /** ... and over resources; a nil pointer counts nothing, a library its spans. */
  lemma {:induction false} SpansAddUp(td: Traces, ue: Traces)
    ensures SpanTotal(td + ue) == SpanTotal(td) + SpanTotal(ue)
    decreases |ue|
  {
    if ue == [] {
      assert td + ue == td;
    } else {
      SpansAddUp(td, ue[..|ue| - 1]);
      assert (td + ue)[..|td + ue| - 1] == td + ue[..|ue| - 1];
    }
  }

  lemma OneLibrary(attributes: seq<Slot>, spans: nat)
    ensures SpanTotal([None]) == 0 && SpanTotal([Some(ResourceSpans(attributes, [None]))]) == 0
    ensures SpanTotal([Some(ResourceSpans(attributes, [Some(spans)]))]) == spans
  {
    var nil: Traces, some: Traces := [None], [Some(ResourceSpans(attributes, [Some(spans)]))];
    var empty: Traces := [Some(ResourceSpans(attributes, [None]))];
    assert nil[..0] == [] && some[..0] == [] && empty[..0] == [];
    var n: seq<Option<nat>>, l: seq<Option<nat>> := [None], [Some(spans)];
    assert n[..0] == [] && l[..0] == [];
    assert LibraryCount(n) == 0 && LibraryCount(l) == spans;
  }

  // ----------------------------------------------------------- by service name

  /** StringVal: the empty string for a value that is not a string. */
  function StringVal(v: Value): string {
    if v.Leaf? && v.scalar.Str? then v.scalar.s else ""
  }

  /** The service a resource names, or the empty string. */
  function ServiceOf(attributes: seq<Slot>, key: string): string {
    var m := ToMap(attributes);
    if key in m then StringVal(m[key]) else ""
  }

  /** A non-empty service is the string in the first entry with the key, and the
      service is empty if there is none or it is no string. */
  lemma ServiceIsFirstString(attributes: seq<Slot>, key: string, service: string)
    requires service != ""
    ensures ServiceOf(attributes, key) == service <==>
            exists i :: && 0 <= i < |attributes| && attributes[i] == Slot(key, Leaf(Str(service)))
                        && forall j :: 0 <= j < i ==> attributes[j].Hole? || attributes[j].key != key
  {
    GetIsLookup(attributes, key);
    var n := Index(attributes, key);
    if ServiceOf(attributes, key) == service {
      assert attributes[n] == Slot(key, Leaf(Str(service)));
    }
    if i :| && 0 <= i < |attributes| && attributes[i] == Slot(key, Leaf(Str(service)))
            && forall j :: 0 <= j < i ==> attributes[j].Hole? || attributes[j].key != key {
      IndexIs(attributes, key, i);
    }
  }

  function Lookup(m: map<string, nat>, k: string): nat {
    if k in m then m[k] else 0
  }

  /** A chunk of spans for a service. */
  datatype Chunk = Chunk(service: string, spans: nat)

  function Chunks(service: string, libs: seq<Option<nat>>): seq<Chunk> {
    if libs == [] then []
    else
      var x := libs[|libs| - 1];
      var init := Chunks(service, libs[..|libs| - 1]);
      if x.None? then init else init + [Chunk(service, x.value)]
  }

  function AllChunks(td: Traces, key: string): seq<Chunk> {
    if td == [] then []
    else
      var rs := td[|td| - 1];
      var init := AllChunks(td[..|td| - 1], key);
      if rs.None? then init else init + Chunks(ServiceOf(rs.value.attributes, key), rs.value.libraries)
  }

  function Tally(m: map<string, nat>, cs: seq<Chunk>): map<string, nat> {
    if cs == [] then m
    else
      var c := cs[|cs| - 1];
      var t := Tally(m, cs[..|cs| - 1]);
      t[c.service := Lookup(t, c.service) + c.spans]
  }

  lemma {:induction false} TallyConcat(m: map<string, nat>, cs: seq<Chunk>, ds: seq<Chunk>)
    ensures Tally(m, cs + ds) == Tally(Tally(m, cs), ds)
    decreases |ds|
  {
    if ds == [] {
      assert cs + ds == cs;
    } else {
      TallyConcat(m, cs, ds[..|ds| - 1]);
      assert (cs + ds)[..|cs + ds| - 1] == cs + ds[..|ds| - 1];
    }
  }

  /** spanCountByResourceStringAttribute */
  method CountByAttribute(td: Traces, key: string) returns (counts: map<string, nat>)
    ensures counts == Tally(map[], AllChunks(td, key))
  {
    counts := map[];
    for i := 0 to |td|
      invariant counts == Tally(map[], AllChunks(td[..i], key))
    {
      assert td[..i + 1][..i] == td[..i];
      if td[i].None? {
        continue;
      }
      var service := "";
      var at := Index(td[i].value.attributes, key);
      GetIsLookup(td[i].value.attributes, key);
      if at < |td[i].value.attributes| {
        service := StringVal(td[i].value.attributes[at].value);
      }
      ghost var done := AllChunks(td[..i], key);
      counts := AddLibraries(counts, service, td[i].value.libraries);
      TallyConcat(map[], done, Chunks(service, td[i].value.libraries));
    }
    assert td[..|td|] == td;
  }

  method AddLibraries(m: map<string, nat>, service: string, libs: seq<Option<nat>>) returns (counts: map<string, nat>)
    ensures counts == Tally(m, Chunks(service, libs))
  {
    counts := m;
    for j := 0 to |libs|
      invariant counts == Tally(m, Chunks(service, libs[..j]))
    {
      assert libs[..j + 1][..j] == libs[..j];
      if libs[j].None? {
        continue;
      }
      TallyConcat(m, Chunks(service, libs[..j]), [Chunk(service, libs[j].value)]);
      assert [Chunk(service, libs[j].value)][..0] == [];
      counts := counts[service := Lookup(counts, service) + libs[j].value];
    }
    assert libs[..|libs|] == libs;
  }

  // ---------------------------------------------------- the counts partition

  /** Spans of one service, straight from the batch. */
  function ServiceTotal(td: Traces, key: string, service: string): nat {
    if td == [] then 0
    else
      var rs := td[|td| - 1];
      ServiceTotal(td[..|td| - 1], key, service)
      + if rs.Some? && ServiceOf(rs.value.attributes, key) == service then LibraryCount(rs.value.libraries) else 0
  }

  lemma {:induction false} TallyOfChunks(m: map<string, nat>, service: string, libs: seq<Option<nat>>, k: string)
    ensures Lookup(Tally(m, Chunks(service, libs)), k) == Lookup(m, k) + if k == service then LibraryCount(libs) else 0
  {
    if libs != [] {
      var init, x := libs[..|libs| - 1], libs[|libs| - 1];
      TallyOfChunks(m, service, init, k);
      if x.Some? {
        TallyConcat(m, Chunks(service, init), [Chunk(service, x.value)]);
        assert [Chunk(service, x.value)][..0] == [];
      }
    }
  }

  /** Each service is counted with exactly its own spans. */
  lemma {:induction false} CountsAreByService(td: Traces, key: string, k: string)
    ensures Lookup(Tally(map[], AllChunks(td, key)), k) == ServiceTotal(td, key, k)
  {
    if td != [] {
      var init, rs := td[..|td| - 1], td[|td| - 1];
      CountsAreByService(init, key, k);
      if rs.Some? {
        var service := ServiceOf(rs.value.attributes, key);
        TallyConcat(map[], AllChunks(init, key), Chunks(service, rs.value.libraries));
        TallyOfChunks(Tally(map[], AllChunks(init, key)), service, rs.value.libraries, k);
      }
    }
  }

  function SumOver(m: map<string, nat>, order: seq<string>): nat {
    if order == [] then 0 else SumOver(m, order[..|order| - 1]) + Lookup(m, order[|order| - 1])
  }

  lemma {:induction false} SumBump(m: map<string, nat>, order: seq<string>, k: string, n: nat)
    requires forall i, j :: 0 <= i < j < |order| ==> order[i] != order[j]
    ensures SumOver(m[k := Lookup(m, k) + n], order) == SumOver(m, order) + if k in order then n else 0
  {
    if order != [] {
      SumBump(m, order[..|order| - 1], k, n);
      assert order == order[..|order| - 1] + [order[|order| - 1]];
    }
  }

  function ChunkTotal(cs: seq<Chunk>): nat {
    if cs == [] then 0 else ChunkTotal(cs[..|cs| - 1]) + cs[|cs| - 1].spans
  }

  lemma {:induction false} TallySums(cs: seq<Chunk>, order: seq<string>)
    requires forall i, j :: 0 <= i < j < |order| ==> order[i] != order[j]
    requires forall k :: k in Tally(map[], cs) ==> k in order
    ensures SumOver(Tally(map[], cs), order) == ChunkTotal(cs)
  {
    if cs == [] {
      SumOfNone(order);
    } else {
      var init, c := cs[..|cs| - 1], cs[|cs| - 1];
      TallySums(init, order);
      SumBump(Tally(map[], init), order, c.service, c.spans);
    }
  }

  lemma {:induction false} SumOfNone(order: seq<string>)
    ensures SumOver(map[], order) == 0
  {
    if order != [] {
      SumOfNone(order[..|order| - 1]);
    }
  }

  lemma {:induction false} ChunkTotalConcat(cs: seq<Chunk>, ds: seq<Chunk>)
    ensures ChunkTotal(cs + ds) == ChunkTotal(cs) + ChunkTotal(ds)
    decreases |ds|
  {
    if ds == [] {
      assert cs + ds == cs;
    } else {
      ChunkTotalConcat(cs, ds[..|ds| - 1]);
      assert (cs + ds)[..|cs + ds| - 1] == cs + ds[..|ds| - 1];
    }
  }

  lemma {:induction false} ChunksCountAll(service: string, libs: seq<Option<nat>>)
    ensures ChunkTotal(Chunks(service, libs)) == LibraryCount(libs)
  {
    if libs != [] {
      var init, x := libs[..|libs| - 1], libs[|libs| - 1];
      ChunksCountAll(service, init);
      if x.Some? {
        ChunkTotalConcat(Chunks(service, init), [Chunk(service, x.value)]);
        assert [Chunk(service, x.value)][..0] == [];
      }
    }
  }

  lemma {:induction false} AllChunksCountAll(td: Traces, key: string)
    ensures ChunkTotal(AllChunks(td, key)) == SpanTotal(td)
  {
    if td != [] {
      var init, rs := td[..|td| - 1], td[|td| - 1];
      AllChunksCountAll(init, key);
      if rs.Some? {
        var service := ServiceOf(rs.value.attributes, key);
        ChunkTotalConcat(AllChunks(init, key), Chunks(service, rs.value.libraries));
        ChunksCountAll(service, rs.value.libraries);
      }
    }
  }

  /** The counts by service add up to the plain count, in whatever order the map
      is walked. */
  lemma CountsPartition(td: Traces, key: string, order: seq<string>)
    requires Walk(order, Tally(map[], AllChunks(td, key)).Keys)
    ensures SumOver(Tally(map[], AllChunks(td, key)), order) == SpanTotal(td)
  {
    TallySums(AllChunks(td, key), order);
    AllChunksCountAll(td, key);
  }

  /** A recorded measurement, tagged with its service or not. */
  datatype Point = Untagged(spans: nat) | Tagged(service: string, spans: nat)

  function Sum(ps: seq<Point>): nat {
    if ps == [] then 0 else Sum(ps[..|ps| - 1]) + ps[|ps| - 1].spans
  }

  /** One point for each service of the batch, with exactly its spans. */
  ghost predicate ByService(ps: seq<Point>, td: Traces, key: string) {
    && (forall i :: 0 <= i < |ps| ==> ps[i].Tagged? && ps[i].spans == ServiceTotal(td, key, ps[i].service))
    && (forall i, j :: 0 <= i < j < |ps| ==> ps[i] != ps[j])
    && (forall k :: ServiceTotal(td, key, k) > 0 ==> Tagged(k, ServiceTotal(td, key, k)) in ps)
  }

  /** NewSpanCountStats followed by RecordsSpanCountMetrics: what is recorded adds
      up to the batch's span count, detailed or not. */
  method Record(td: Traces, key: string, detailed: bool) returns (recorded: seq<Point>)
    ensures Sum(recorded) == SpanTotal(td)
    ensures if detailed then ByService(recorded, td, key) else recorded == [Untagged(SpanTotal(td))]
  {
    var all := SpanCount(td);
    recorded := [];
    if !detailed {
      recorded := [Untagged(all)];
      assert [Untagged(all)][..0] == [];
      return;
    }
    var counts := CountByAttribute(td, key);
    ghost var order;
    recorded, order := RecordEach(counts);
    CountsPartition(td, key, order);
    TaggedIsByService(td, key, counts, recorded, order);
  }

  ghost predicate TaggedBy(ps: seq<Point>, counts: map<string, nat>, order: seq<string>) {
    |ps| == |order| && forall i :: 0 <= i < |ps| ==> order[i] in counts && ps[i] == Tagged(order[i], counts[order[i]])
  }

  method RecordEach(counts: map<string, nat>) returns (recorded: seq<Point>, ghost order: seq<string>)
    ensures Walk(order, counts.Keys) && TaggedBy(recorded, counts, order)
    ensures Sum(recorded) == SumOver(counts, order)
  {
    recorded, order := [], [];
    var rest := counts.Keys;
    while rest != {}
      invariant rest <= counts.Keys && Walk(order, counts.Keys - rest)
      invariant TaggedBy(recorded, counts, order) && Sum(recorded) == SumOver(counts, order)
      decreases rest
    {
      var k :| k in rest;
      var p := Tagged(k, counts[k]);
      assert (order + [k])[..|order|] == order && (recorded + [p])[..|recorded|] == recorded;
      recorded, order, rest := recorded + [p], order + [k], rest - {k};
    }
  }

  lemma TaggedIsByService(td: Traces, key: string, counts: map<string, nat>, ps: seq<Point>, order: seq<string>)
    requires counts == Tally(map[], AllChunks(td, key)) && Walk(order, counts.Keys) && TaggedBy(ps, counts, order)
    ensures ByService(ps, td, key)
  {
    forall k
      ensures Lookup(counts, k) == ServiceTotal(td, key, k)
    {
      CountsAreByService(td, key, k);
    }
    forall k | ServiceTotal(td, key, k) > 0
      ensures Tagged(k, ServiceTotal(td, key, k)) in ps
    {
      assert k in counts && k in order;
      var i :| 0 <= i < |order| && order[i] == k;
      assert ps[i] == Tagged(k, counts[k]);
    }
  }
}
