/** PushMetrics of the remote-write exporter: which samples a batch of metrics
    turns into, which metrics are dropped, and what is sent. */
module RemoteWrite {
  import opened Options
  import opened ComponentErrors
  import opened PromLabels
  import opened LabelSets
  import opened SeriesIndex

  datatype Temporality = InvalidTemporality | Instantaneous | Delta | Cumulative

  datatype Descriptor = Descriptor(name: string, ty: MetricType, temporality: Temporality)

  datatype IntPoint = IntPoint(labels: seq<Option<Pair>>, time: UInt64, value: int)

  datatype DoublePoint = DoublePoint(labels: seq<Option<Pair>>, time: UInt64, value: real)

  datatype HistogramPoint =
    HistogramPoint(labels: seq<Option<Pair>>, time: UInt64, sum: real, count: UInt64, buckets: seq<Option<UInt64>>, bounds: seq<real>)

  datatype Quantile = Quantile(percentile: real, value: real)

  datatype SummaryPoint =
    SummaryPoint(labels: seq<Option<Pair>>, time: UInt64, sum: real, count: UInt64, quantiles: seq<Option<Quantile>>)

  /** A nil slice is None; so is a nil point, label, bucket or percentile inside one. */
  datatype Metric = Metric(
    descriptor: Option<Descriptor>,
    ints: Option<seq<Option<IntPoint>>>,
    doubles: Option<seq<Option<DoublePoint>>>,
    histograms: Option<seq<Option<HistogramPoint>>>,
    summaries: Option<seq<Option<SummaryPoint>>>)

  /** Resource metrics, library metrics, metrics; a nil pointer is None. */
  type Batch = seq<Option<seq<Option<seq<Option<Metric>>>>>>

  /** The exporter's namespace, and the number printer and character tables it
      uses from the Go library. */
  datatype Settings = Settings(u: Unicode, namespace: string, format: real -> string)

  // ------------------------------------------------------------ small pieces

  function ValidateMetrics(d: Option<Descriptor>): bool {
    d.Some? &&
    match d.value.ty
    case MonotonicDouble | MonotonicInt64 | Histogram | Summary => d.value.temporality == Cumulative
    case Int64 | Double => true
    case InvalidType => false
  }

  function PromName(cfg: Settings, d: Descriptor): string {
    var b := if |cfg.namespace| > 0 then cfg.namespace + "_" + d.name else d.name;
    Sanitize(cfg.u, if |b| > 0 && d.ty in {MonotonicInt64, MonotonicDouble} then b + "_total" else b)
  }

  /** A namespace is put in front, with an underscore. */
  lemma NamespacePrefixes(cfg: Settings, d: Descriptor)
    ensures PromName(cfg, d) ==
            if cfg.namespace == "" then PromName(cfg.(namespace := ""), d)
            else PromName(cfg.(namespace := ""), d.(name := cfg.namespace + "_" + d.name))
  {
  }

  /** Without one, counters get a suffix, unless they have no name at all, and all
      names are sanitized. */
  lemma CountersAreTotals(cfg: Settings, d: Descriptor)
    requires cfg.namespace == ""
    ensures PromName(cfg, d) ==
            Sanitize(cfg.u, if d.ty in {MonotonicInt64, MonotonicDouble} && d.name != "" then d.name + "_total" else d.name)
  {
  }

  /** The metrics the exporter does not accept: without a descriptor or a type, a
      counter, histogram or summary that is not cumulative, or without the points
      its type calls for. */
  predicate Refused(m: Metric) {
    || m.descriptor.None?
    || var d := m.descriptor.value;
       || d.ty == InvalidType
       || (d.ty !in {Int64, Double} && d.temporality != Cumulative)
       || (d.ty in {Int64, MonotonicInt64} && m.ints.None?)
       || (d.ty in {Double, MonotonicDouble} && m.doubles.None?)
       || (d.ty == Histogram && m.histograms.None?)
       || (d.ty == Summary && m.summaries.None?)
  }

  // --------------------------------------------- which samples a metric means

  predicate NoNil<T>(xs: seq<Option<T>>) {
    forall i :: 0 <= i < |xs| ==> xs[i].Some?
  }

  /** The labels of a point. The code panics on a nil label; plans are for points
      without one, and the same goes for buckets and percentiles. */
  function Labels(xs: seq<Option<Pair>>): (r: seq<Pair>)
    ensures |r| == |xs| && forall i :: 0 <= i < |xs| && xs[i].Some? ==> r[i] == xs[i].value
  {
    seq(|xs|, i requires 0 <= i < |xs| => if xs[i].Some? then xs[i].value else Pair("", ""))
  }

  function Counts(xs: seq<Option<UInt64>>): (r: seq<UInt64>)
    ensures |r| == |xs| && forall i :: 0 <= i < |xs| ==> r[i] == CountOf(xs[i])
  {
    seq(|xs|, i requires 0 <= i < |xs| => CountOf(xs[i]))
  }

  function CountOf(x: Option<UInt64>): UInt64 {
    if x.Some? then x.value else 0
  }

  function QuantileOf(x: Option<Quantile>): Quantile {
    if x.Some? then x.value else Quantile(0.0, 0.0)
  }

  function Plan(cfg: Settings, d: Descriptor, labels: seq<Option<Pair>>, extras: seq<string>, value: real, time: UInt64): Planned {
    Planned(d.ty, Content(cfg.u, Labels(labels), extras), value, time)
  }

  function NameOnly(cfg: Settings, d: Descriptor): seq<string> {
    ["__name__", PromName(cfg, d)]
  }

  function Suffixed(cfg: Settings, d: Descriptor, suffix: string): seq<string> {
    ["__name__", PromName(cfg, d) + suffix]
  }

  function BucketLabels(cfg: Settings, d: Descriptor, bound: real): seq<string> {
    ["__name__", PromName(cfg, d) + "_bucket", "le", cfg.format(bound)]
  }

  function InfLabels(cfg: Settings, d: Descriptor): seq<string> {
    ["__name__", PromName(cfg, d) + "_bucket", "le", "+Inf"]
  }

  function QuantileLabels(cfg: Settings, d: Descriptor, percentile: real): seq<string> {
    ["__name__", PromName(cfg, d), "quantile", cfg.format(percentile)]
  }

  function IntPlan(cfg: Settings, d: Descriptor, pts: seq<Option<IntPoint>>): seq<Planned> {
    if pts == [] then []
    else
      var pt := pts[|pts| - 1];
      IntPlan(cfg, d, pts[..|pts| - 1])
      + if pt.None? then []
        else [Plan(cfg, d, pt.value.labels, NameOnly(cfg, d), pt.value.value as real, pt.value.time)]
  }

  function DoublePlan(cfg: Settings, d: Descriptor, pts: seq<Option<DoublePoint>>): seq<Planned> {
    if pts == [] then []
    else
      var pt := pts[|pts| - 1];
      DoublePlan(cfg, d, pts[..|pts| - 1])
      + if pt.None? then []
        else [Plan(cfg, d, pt.value.labels, NameOnly(cfg, d), pt.value.value, pt.value.time)]
  }

  function SumAndCount(cfg: Settings, d: Descriptor, labels: seq<Option<Pair>>, sum: real, count: UInt64, time: UInt64): seq<Planned> {
    [Plan(cfg, d, labels, Suffixed(cfg, d, "_sum"), sum, time),
     Plan(cfg, d, labels, Suffixed(cfg, d, "_count"), count as real, time)]
  }

  function WrappingAdd(a: UInt64, b: UInt64): UInt64 {
    (a + b) % 0x1_0000_0000_0000_0000
  }

  /** The running uint64 total. */
  function Total(buckets: seq<UInt64>): UInt64 {
    if buckets == [] then 0
    else WrappingAdd(Total(buckets[..|buckets| - 1]), buckets[|buckets| - 1])
  }

  /** The bound of bucket `i`. The code indexes the bounds without a check and
      panics if there is none; the plan is for points with a bound for every bucket. */
  function BoundAt(pt: HistogramPoint, i: nat): real {
    if i < |pt.bounds| then pt.bounds[i] else 0.0
  }

  function BucketSample(cfg: Settings, d: Descriptor, pt: HistogramPoint, i: nat): Planned
    requires i < |pt.buckets|
  {
    Plan(cfg, d, pt.labels, BucketLabels(cfg, d, BoundAt(pt, i)), CountOf(pt.buckets[i]) as real, pt.time)
  }

  function BucketPlan(cfg: Settings, d: Descriptor, pt: HistogramPoint, n: nat): seq<Planned>
    requires n <= |pt.buckets|
  {
    seq(n, i requires 0 <= i < n => BucketSample(cfg, d, pt, i))
  }

  function HistogramPointPlan(cfg: Settings, d: Descriptor, pt: HistogramPoint): seq<Planned> {
    SumAndCount(cfg, d, pt.labels, pt.sum, pt.count, pt.time)
    + BucketPlan(cfg, d, pt, |pt.buckets|)
    + [Plan(cfg, d, pt.labels, InfLabels(cfg, d), Total(Counts(pt.buckets)) as real, pt.time)]
  }

  function HistogramPlan(cfg: Settings, d: Descriptor, pts: seq<Option<HistogramPoint>>): seq<Planned> {
    if pts == [] then []
    else
      var pt := pts[|pts| - 1];
      HistogramPlan(cfg, d, pts[..|pts| - 1]) + if pt.None? then [] else HistogramPointPlan(cfg, d, pt.value)
  }

  function QuantileSample(cfg: Settings, d: Descriptor, pt: SummaryPoint, i: nat): Planned
    requires i < |pt.quantiles|
  {
    var q := QuantileOf(pt.quantiles[i]);
    Plan(cfg, d, pt.labels, QuantileLabels(cfg, d, q.percentile), q.value, pt.time)
  }

  function QuantilePlan(cfg: Settings, d: Descriptor, pt: SummaryPoint, n: nat): seq<Planned>
    requires n <= |pt.quantiles|
  {
    seq(n, i requires 0 <= i < n => QuantileSample(cfg, d, pt, i))
  }

  function SummaryPointPlan(cfg: Settings, d: Descriptor, pt: SummaryPoint): seq<Planned> {
    SumAndCount(cfg, d, pt.labels, pt.sum, pt.count, pt.time) + QuantilePlan(cfg, d, pt, |pt.quantiles|)
  }

  function SummaryPlan(cfg: Settings, d: Descriptor, pts: seq<Option<SummaryPoint>>): seq<Planned> {
    if pts == [] then []
    else
      var pt := pts[|pts| - 1];
      SummaryPlan(cfg, d, pts[..|pts| - 1]) + if pt.None? then [] else SummaryPointPlan(cfg, d, pt.value)
  }

  // ------------------------------------------------ what the code panics on

  predicate SoundInt(pt: IntPoint) {
    NoNil(pt.labels)
  }

  predicate SoundDouble(pt: DoublePoint) {
    NoNil(pt.labels)
  }

  /** Every bucket has a bound, too. */
  predicate SoundHistogram(pt: HistogramPoint) {
    NoNil(pt.labels) && NoNil(pt.buckets) && |pt.buckets| <= |pt.bounds|
  }

  predicate SoundSummary(pt: SummaryPoint) {
    NoNil(pt.labels) && NoNil(pt.quantiles)
  }

  /** Nil summary points are not skipped. */
  predicate SoundSummaries(pts: seq<Option<SummaryPoint>>) {
    forall i :: 0 <= i < |pts| ==> pts[i].Some? && SoundSummary(pts[i].value)
  }

  lemma SummarySoundStep(pts: seq<Option<SummaryPoint>>, i: nat)
    requires i < |pts|
    ensures SoundSummaries(pts) ==> pts[i].Some? && SoundSummary(pts[i].value)
    ensures SoundSummaries(pts[..i]) && pts[i].Some? && SoundSummary(pts[i].value) ==> SoundSummaries(pts[..i + 1])
  {
  }

  /** Nil points are skipped. */
  predicate AllSound<T>(pts: seq<Option<T>>, sound: T -> bool) {
    forall i :: 0 <= i < |pts| && pts[i].Some? ==> sound(pts[i].value)
  }

  lemma SoundStep<T>(pts: seq<Option<T>>, sound: T -> bool, i: nat)
    requires i < |pts|
    ensures AllSound(pts, sound) ==> (pts[i].Some? ==> sound(pts[i].value))
    ensures AllSound(pts[..i], sound) && (pts[i].Some? ==> sound(pts[i].value)) ==> AllSound(pts[..i + 1], sound)
  {
  }

  /** Translating the metric meets no nil label, bucket, percentile or summary
      point, and no bucket without a bound. */
  predicate Translatable(m: Metric) {
    ValidateMetrics(m.descriptor) ==>
      match m.descriptor.value.ty
      case MonotonicInt64 | Int64 => m.ints.Some? ==> AllSound(m.ints.value, SoundInt)
      case MonotonicDouble | Double => m.doubles.Some? ==> AllSound(m.doubles.value, SoundDouble)
      case Histogram => m.histograms.Some? ==> AllSound(m.histograms.value, SoundHistogram)
      case Summary => m.summaries.Some? ==> SoundSummaries(m.summaries.value)
      case InvalidType => true
  }

  /** The samples of one metric, or None when the metric is rejected. */
  function MetricPlan(cfg: Settings, m: Metric): Option<seq<Planned>> {
    if !ValidateMetrics(m.descriptor) then None
    else
      var d := m.descriptor.value;
      match d.ty
      case MonotonicInt64 | Int64 => if m.ints.None? then None else Some(IntPlan(cfg, d, m.ints.value))
      case MonotonicDouble | Double => if m.doubles.None? then None else Some(DoublePlan(cfg, d, m.doubles.value))
      case Histogram => if m.histograms.None? then None else Some(HistogramPlan(cfg, d, m.histograms.value))
      case Summary => if m.summaries.None? then None else Some(SummaryPlan(cfg, d, m.summaries.value))
      case InvalidType => None
  }

  // -------------------------------------------- facts about the translation

  /** A metric has no plan exactly when it is refused; otherwise its plan is that of
      the points its type calls for. */
  lemma RefusedHasNoPlan(cfg: Settings, m: Metric)
    ensures MetricPlan(cfg, m).None? <==> Refused(m)
    ensures !Refused(m) ==>
              var d := m.descriptor.value;
              && (d.ty in {Int64, MonotonicInt64} ==> MetricPlan(cfg, m) == Some(IntPlan(cfg, d, m.ints.value)))
              && (d.ty in {Double, MonotonicDouble} ==> MetricPlan(cfg, m) == Some(DoublePlan(cfg, d, m.doubles.value)))
              && (d.ty == Histogram ==> MetricPlan(cfg, m) == Some(HistogramPlan(cfg, d, m.histograms.value)))
              && (d.ty == Summary ==> MetricPlan(cfg, m) == Some(SummaryPlan(cfg, d, m.summaries.value)))
  {
  }

  function NonNil<T>(pts: seq<Option<T>>): nat {
    if pts == [] then 0 else NonNil(pts[..|pts| - 1]) + if pts[|pts| - 1].Some? then 1 else 0
  }

  function HistogramSize(pts: seq<Option<HistogramPoint>>): nat {
    if pts == [] then 0
    else HistogramSize(pts[..|pts| - 1]) + if pts[|pts| - 1].Some? then 3 + |pts[|pts| - 1].value.buckets| else 0
  }

  function SummarySize(pts: seq<Option<SummaryPoint>>): nat {
    if pts == [] then 0
    else SummarySize(pts[..|pts| - 1]) + if pts[|pts| - 1].Some? then 2 + |pts[|pts| - 1].value.quantiles| else 0
  }

  lemma {:induction false} IntPlanSize(cfg: Settings, d: Descriptor, pts: seq<Option<IntPoint>>)
    ensures |IntPlan(cfg, d, pts)| == NonNil(pts)
  {
    if pts != [] {
      IntPlanSize(cfg, d, pts[..|pts| - 1]);
    }
  }

  lemma {:induction false} DoublePlanSize(cfg: Settings, d: Descriptor, pts: seq<Option<DoublePoint>>)
    ensures |DoublePlan(cfg, d, pts)| == NonNil(pts)
  {
    if pts != [] {
      DoublePlanSize(cfg, d, pts[..|pts| - 1]);
    }
  }

  lemma {:induction false} HistogramPlanSize(cfg: Settings, d: Descriptor, pts: seq<Option<HistogramPoint>>)
    ensures |HistogramPlan(cfg, d, pts)| == HistogramSize(pts)
  {
    if pts != [] {
      HistogramPlanSize(cfg, d, pts[..|pts| - 1]);
    }
  }

  lemma {:induction false} SummaryPlanSize(cfg: Settings, d: Descriptor, pts: seq<Option<SummaryPoint>>)
    ensures |SummaryPlan(cfg, d, pts)| == SummarySize(pts)
  {
    if pts != [] {
      SummaryPlanSize(cfg, d, pts[..|pts| - 1]);
    }
  }

  function Sum(buckets: seq<UInt64>): nat {
    if buckets == [] then 0 else Sum(buckets[..|buckets| - 1]) + buckets[|buckets| - 1]
  }

  lemma WrapsOnce(a: nat, b: UInt64)
    ensures WrappingAdd(a % 0x1_0000_0000_0000_0000, b) == (a + b) % 0x1_0000_0000_0000_0000
  {
  }

  /** The +Inf bucket counts what all buckets count together, up to wrap-around. */
  lemma {:induction false} TotalIsSum(buckets: seq<UInt64>)
    ensures Total(buckets) == Sum(buckets) % 0x1_0000_0000_0000_0000
    ensures Sum(buckets) < 0x1_0000_0000_0000_0000 ==> Total(buckets) == Sum(buckets)
  {
    if buckets != [] {
      TotalIsSum(buckets[..|buckets| - 1]);
      WrapsOnce(Sum(buckets[..|buckets| - 1]), buckets[|buckets| - 1]);
    }
  }

  /** The number of samples a metric turns into. */
  lemma MetricPlanSize(cfg: Settings, m: Metric)
    requires MetricPlan(cfg, m).Some?
    ensures |MetricPlan(cfg, m).value| ==
            match m.descriptor.value.ty
            case MonotonicInt64 | Int64 => NonNil(m.ints.value)
            case MonotonicDouble | Double => NonNil(m.doubles.value)
            case Histogram => HistogramSize(m.histograms.value)
            case Summary => SummarySize(m.summaries.value)
            case InvalidType => 0
  {
    var d := m.descriptor.value;
    match d.ty
    case MonotonicInt64 | Int64 => IntPlanSize(cfg, d, m.ints.value);
    case MonotonicDouble | Double => DoublePlanSize(cfg, d, m.doubles.value);
    case Histogram => HistogramPlanSize(cfg, d, m.histograms.value);
    case Summary => SummaryPlanSize(cfg, d, m.summaries.value);
    case InvalidType =>
  }

  /** Reserved labels cannot be displaced by a point's own labels, and all other
      labels of the point are there. */
  lemma PlannedLabels(cfg: Settings, d: Descriptor, labels: seq<Option<Pair>>, extras: seq<string>, value: real, time: UInt64, i: nat, k: string)
    requires 2 * i + 1 < |extras| && (forall j :: i < j < |extras| / 2 ==> extras[2 * j] != extras[2 * i])
    ensures var c := Plan(cfg, d, labels, extras, value, time).content;
            && extras[2 * i] in c && c[extras[2 * i]] == Label(NameFor(cfg.u, extras[2 * i], true), extras[2 * i + 1])
            && var ls := Labels(labels);
               LastIndex(Paired(extras), k) < 0 <= LastIndex(ls, k) ==>
                 k in c && c[k] == Label(Sanitize(cfg.u, k), ls[LastIndex(ls, k)].value)
  {
    LastWriterWins(cfg.u, Labels(labels), extras, extras[2 * i]);
    LastWriterWins(cfg.u, Labels(labels), extras, k);
    LastIndexIs(Paired(extras), extras[2 * i], i);
  }

  lemma LastIndexIs(pairs: seq<Pair>, k: string, i: nat)
    requires i < |pairs| && pairs[i].key == k && forall j :: i < j < |pairs| ==> pairs[j].key != k
    ensures LastIndex(pairs, k) == i
  {
  }

  /** The name under which a planned sample is stored. */
  ghost predicate Stored(p: Planned, name: string, value: real, time: UInt64) {
    && "__name__" in p.content && p.content["__name__"] == Label("__name__", name)
    && SampleOf(p) == Sample(value, time / 1_000_000)
  }

  /** Besides its reserved labels a sample carries exactly the labels of its point,
      each with the last value given for it. */
  ghost predicate Carries(cfg: Settings, p: Planned, labels: seq<Option<Pair>>, reserved: set<string>) {
    forall k :: k !in reserved ==> CarriesAt(cfg, p, Labels(labels), k)
  }

  predicate CarriesAt(cfg: Settings, p: Planned, ls: seq<Pair>, k: string) {
    var j := LastIndex(ls, k);
    (k in p.content <==> j >= 0) && (j >= 0 ==> p.content[k] == Label(Sanitize(cfg.u, k), ls[j].value))
  }

  lemma PlanCarries(cfg: Settings, d: Descriptor, labels: seq<Option<Pair>>, extras: seq<string>, value: real, time: UInt64, reserved: set<string>)
    requires forall i :: 0 <= i < |Paired(extras)| ==> Paired(extras)[i].key in reserved
    ensures Carries(cfg, Plan(cfg, d, labels, extras, value, time), labels, reserved)
  {
    forall k | k !in reserved
      ensures CarriesAt(cfg, Plan(cfg, d, labels, extras, value, time), Labels(labels), k)
    {
      LastWriterWins(cfg.u, Labels(labels), extras, k);
    }
  }

  lemma {:induction false} IntPlanAt(cfg: Settings, d: Descriptor, pts: seq<Option<IntPoint>>, i: nat)
    requires i < |pts| && pts[i].Some?
    ensures var ps, k, pt := IntPlan(cfg, d, pts), NonNil(pts[..i]), pts[i].value;
            k < |ps| && ps[k] == Plan(cfg, d, pt.labels, NameOnly(cfg, d), pt.value as real, pt.time)
    decreases |pts|
  {
    var init := pts[..|pts| - 1];
    IntPlanSize(cfg, d, init);
    assert pts[..i] == init[..i];
    if i < |init| {
      IntPlanAt(cfg, d, init, i);
    } else {
      assert init[..i] == init;
    }
  }

  lemma {:induction false} DoublePlanAt(cfg: Settings, d: Descriptor, pts: seq<Option<DoublePoint>>, i: nat)
    requires i < |pts| && pts[i].Some?
    ensures var ps, k, pt := DoublePlan(cfg, d, pts), NonNil(pts[..i]), pts[i].value;
            k < |ps| && ps[k] == Plan(cfg, d, pt.labels, NameOnly(cfg, d), pt.value, pt.time)
    decreases |pts|
  {
    var init := pts[..|pts| - 1];
    DoublePlanSize(cfg, d, init);
    assert pts[..i] == init[..i];
    if i < |init| {
      DoublePlanAt(cfg, d, init, i);
    } else {
      assert init[..i] == init;
    }
  }

  /** The sample of an integer point, found after those of the non-nil points
      before it: its value and time, under the metric's name. */
  lemma IntMeaning(cfg: Settings, d: Descriptor, pts: seq<Option<IntPoint>>, i: nat)
    requires i < |pts| && pts[i].Some?
    ensures var ps, k, pt := IntPlan(cfg, d, pts), NonNil(pts[..i]), pts[i].value;
            && |ps| == NonNil(pts) && k < |ps|
            && Stored(ps[k], PromName(cfg, d), pt.value as real, pt.time) && Carries(cfg, ps[k], pt.labels, {"__name__"})
  {
    var pt := pts[i].value;
    IntPlanSize(cfg, d, pts);
    IntPlanAt(cfg, d, pts, i);
    TwoLabels(cfg, d, pt.labels, PromName(cfg, d), pt.value as real, pt.time);
  }

  /** And of a double point. */
  lemma DoubleMeaning(cfg: Settings, d: Descriptor, pts: seq<Option<DoublePoint>>, i: nat)
    requires i < |pts| && pts[i].Some?
    ensures var ps, k, pt := DoublePlan(cfg, d, pts), NonNil(pts[..i]), pts[i].value;
            && |ps| == NonNil(pts) && k < |ps|
            && Stored(ps[k], PromName(cfg, d), pt.value, pt.time) && Carries(cfg, ps[k], pt.labels, {"__name__"})
  {
    var pt := pts[i].value;
    DoublePlanSize(cfg, d, pts);
    DoublePlanAt(cfg, d, pts, i);
    TwoLabels(cfg, d, pt.labels, PromName(cfg, d), pt.value, pt.time);
  }

  /** The sum and count that open a histogram or summary point. */
  lemma SumAndCountMeaning(cfg: Settings, d: Descriptor, labels: seq<Option<Pair>>, sum: real, count: UInt64, time: UInt64)
    ensures var ps := SumAndCount(cfg, d, labels, sum, count, time);
            && |ps| == 2
            && Stored(ps[0], PromName(cfg, d) + "_sum", sum, time)
            && Stored(ps[1], PromName(cfg, d) + "_count", count as real, time)
            && Carries(cfg, ps[0], labels, {"__name__"}) && Carries(cfg, ps[1], labels, {"__name__"})
  {
    TwoLabels(cfg, d, labels, PromName(cfg, d) + "_sum", sum, time);
    TwoLabels(cfg, d, labels, PromName(cfg, d) + "_count", count as real, time);
  }

  /** Each bucket of a histogram point is stored with its own count under its bound. */
  lemma BucketMeaning(cfg: Settings, d: Descriptor, pt: HistogramPoint, i: nat)
    requires i < |pt.buckets| <= |pt.bounds| && pt.buckets[i].Some?
    ensures var ps := HistogramPointPlan(cfg, d, pt);
            && |ps| == |pt.buckets| + 3
            && Stored(ps[2 + i], PromName(cfg, d) + "_bucket", pt.buckets[i].value as real, pt.time)
            && "le" in ps[2 + i].content && ps[2 + i].content["le"].value == cfg.format(pt.bounds[i])
            && Carries(cfg, ps[2 + i], pt.labels, {"__name__", "le"})
  {
    BucketAt(cfg, d, pt, i);
    FourLabels(cfg, d, pt.labels, PromName(cfg, d) + "_bucket", "le", cfg.format(pt.bounds[i]), pt.buckets[i].value as real, pt.time);
  }

  lemma BucketAt(cfg: Settings, d: Descriptor, pt: HistogramPoint, i: nat)
    requires i < |pt.buckets|
    ensures |HistogramPointPlan(cfg, d, pt)| == |pt.buckets| + 3
    ensures HistogramPointPlan(cfg, d, pt)[2 + i] == BucketSample(cfg, d, pt, i)
  {
  }

  /** The last sample of a histogram point counts under +Inf what all its
      buckets count together. */
  lemma InfMeaning(cfg: Settings, d: Descriptor, pt: HistogramPoint)
    ensures var ps, n := HistogramPointPlan(cfg, d, pt), |pt.buckets|;
            && |ps| == n + 3
            && Stored(ps[n + 2], PromName(cfg, d) + "_bucket", (Sum(Counts(pt.buckets)) % 0x1_0000_0000_0000_0000) as real, pt.time)
            && "le" in ps[n + 2].content && ps[n + 2].content["le"].value == "+Inf"
            && Carries(cfg, ps[n + 2], pt.labels, {"__name__", "le"})
  {
    TotalIsSum(Counts(pt.buckets));
    FourLabels(cfg, d, pt.labels, PromName(cfg, d) + "_bucket", "le", "+Inf", Total(Counts(pt.buckets)) as real, pt.time);
  }

  /** Each percentile of a summary point is stored under the plain name. */
  lemma QuantileMeaning(cfg: Settings, d: Descriptor, pt: SummaryPoint, i: nat)
    requires i < |pt.quantiles| && pt.quantiles[i].Some?
    ensures var ps, q := SummaryPointPlan(cfg, d, pt), pt.quantiles[i].value;
            && |ps| == |pt.quantiles| + 2
            && Stored(ps[2 + i], PromName(cfg, d), q.value, pt.time)
            && "quantile" in ps[2 + i].content && ps[2 + i].content["quantile"].value == cfg.format(q.percentile)
            && Carries(cfg, ps[2 + i], pt.labels, {"__name__", "quantile"})
  {
    QuantileAt(cfg, d, pt, i);
    var q := pt.quantiles[i].value;
    FourLabels(cfg, d, pt.labels, PromName(cfg, d), "quantile", cfg.format(q.percentile), q.value, pt.time);
  }

  lemma QuantileAt(cfg: Settings, d: Descriptor, pt: SummaryPoint, i: nat)
    requires i < |pt.quantiles|
    ensures |SummaryPointPlan(cfg, d, pt)| == |pt.quantiles| + 2
    ensures SummaryPointPlan(cfg, d, pt)[2 + i] == QuantileSample(cfg, d, pt, i)
  {
  }

  /** `mine` is found in `ps` from position `k` on. */
  predicate FoundAt(ps: seq<Planned>, k: nat, mine: seq<Planned>) {
    k + |mine| <= |ps| && ps[k..k + |mine|] == mine
  }

  lemma FoundInLonger(ps: seq<Planned>, k: nat, mine: seq<Planned>, more: seq<Planned>)
    requires FoundAt(ps, k, mine)
    ensures FoundAt(ps + more, k, mine)
  {
  }

  lemma FoundAtEnd(ps: seq<Planned>, mine: seq<Planned>)
    ensures FoundAt(ps + mine, |ps|, mine)
  {
  }

  lemma HistogramAtEnd(cfg: Settings, d: Descriptor, pts: seq<Option<HistogramPoint>>)
    requires pts != [] && pts[|pts| - 1].Some?
    ensures FoundAt(HistogramPlan(cfg, d, pts), |HistogramPlan(cfg, d, pts[..|pts| - 1])|, HistogramPointPlan(cfg, d, pts[|pts| - 1].value))
  {
    FoundAtEnd(HistogramPlan(cfg, d, pts[..|pts| - 1]), HistogramPointPlan(cfg, d, pts[|pts| - 1].value));
  }

  lemma HistogramGrows(cfg: Settings, d: Descriptor, pts: seq<Option<HistogramPoint>>, k: nat, mine: seq<Planned>)
    requires pts != [] && FoundAt(HistogramPlan(cfg, d, pts[..|pts| - 1]), k, mine)
    ensures FoundAt(HistogramPlan(cfg, d, pts), k, mine)
  {
    var last := pts[|pts| - 1];
    FoundInLonger(HistogramPlan(cfg, d, pts[..|pts| - 1]), k, mine, if last.None? then [] else HistogramPointPlan(cfg, d, last.value));
  }

  /** Where the samples of each non-nil histogram point are found ... */
  lemma {:induction false} HistogramPlanAt(cfg: Settings, d: Descriptor, pts: seq<Option<HistogramPoint>>, i: nat)
    requires i < |pts| && pts[i].Some?
    ensures FoundAt(HistogramPlan(cfg, d, pts), HistogramSize(pts[..i]), HistogramPointPlan(cfg, d, pts[i].value))
    decreases |pts|
  {
    var init := pts[..|pts| - 1];
    assert pts[..i] == init[..i];
    if i < |init| {
      HistogramPlanAt(cfg, d, init, i);
      HistogramGrows(cfg, d, pts, HistogramSize(init[..i]), HistogramPointPlan(cfg, d, pts[i].value));
    } else {
      assert init[..i] == init;
      HistogramPlanSize(cfg, d, init);
      HistogramAtEnd(cfg, d, pts);
    }
  }

  lemma SummaryAtEnd(cfg: Settings, d: Descriptor, pts: seq<Option<SummaryPoint>>)
    requires pts != [] && pts[|pts| - 1].Some?
    ensures FoundAt(SummaryPlan(cfg, d, pts), |SummaryPlan(cfg, d, pts[..|pts| - 1])|, SummaryPointPlan(cfg, d, pts[|pts| - 1].value))
  {
    FoundAtEnd(SummaryPlan(cfg, d, pts[..|pts| - 1]), SummaryPointPlan(cfg, d, pts[|pts| - 1].value));
  }

  lemma SummaryGrows(cfg: Settings, d: Descriptor, pts: seq<Option<SummaryPoint>>, k: nat, mine: seq<Planned>)
    requires pts != [] && FoundAt(SummaryPlan(cfg, d, pts[..|pts| - 1]), k, mine)
    ensures FoundAt(SummaryPlan(cfg, d, pts), k, mine)
  {
    var last := pts[|pts| - 1];
    FoundInLonger(SummaryPlan(cfg, d, pts[..|pts| - 1]), k, mine, if last.None? then [] else SummaryPointPlan(cfg, d, last.value));
  }

  /** ... and of each summary point. */
  lemma {:induction false} SummaryPlanAt(cfg: Settings, d: Descriptor, pts: seq<Option<SummaryPoint>>, i: nat)
    requires i < |pts| && pts[i].Some?
    ensures FoundAt(SummaryPlan(cfg, d, pts), SummarySize(pts[..i]), SummaryPointPlan(cfg, d, pts[i].value))
    decreases |pts|
  {
    var init := pts[..|pts| - 1];
    assert pts[..i] == init[..i];
    if i < |init| {
      SummaryPlanAt(cfg, d, init, i);
      SummaryGrows(cfg, d, pts, SummarySize(init[..i]), SummaryPointPlan(cfg, d, pts[i].value));
    } else {
      assert init[..i] == init;
      SummaryPlanSize(cfg, d, init);
      SummaryAtEnd(cfg, d, pts);
    }
  }

  lemma ReservedName(u: Unicode)
    ensures NameFor(u, "__name__", true) == "__name__"
  {
    assert "__name__"[..2] == "__" && "__name__"[6..] == "__";
  }

  lemma TwoLabels(cfg: Settings, d: Descriptor, labels: seq<Option<Pair>>, name: string, value: real, time: UInt64)
    ensures var p := Plan(cfg, d, labels, ["__name__", name], value, time);
            Stored(p, name, value, time) && Carries(cfg, p, labels, {"__name__"})
  {
    PlanCarries(cfg, d, labels, ["__name__", name], value, time, {"__name__"});
    ReservedName(cfg.u);
    PlannedLabels(cfg, d, labels, ["__name__", name], value, time, 0, "__name__");
  }

  lemma FourLabels(cfg: Settings, d: Descriptor, labels: seq<Option<Pair>>, name: string, key: string, text: string, value: real, time: UInt64)
    requires key != "__name__"
    ensures var p := Plan(cfg, d, labels, ["__name__", name, key, text], value, time);
            && Stored(p, name, value, time) && Carries(cfg, p, labels, {"__name__", key})
            && key in p.content && p.content[key].value == text
  {
    var extras := ["__name__", name, key, text];
    PlanCarries(cfg, d, labels, extras, value, time, {"__name__", key});
    ReservedName(cfg.u);
    PlannedLabels(cfg, d, labels, extras, value, time, 0, key);
    PlannedLabels(cfg, d, labels, extras, value, time, 1, key);
  }

  // ---------------------------------------------------- filling the index

  lemma Extend(a: seq<Planned>, b: seq<Planned>, c: seq<Planned>)
    ensures (a + b) + c == a + (b + c)
  {
  }

  /** Reading the labels of a point; `ok` is false if the code panics on a nil one. */
  method ReadLabels(labels: seq<Option<Pair>>) returns (ok: bool, r: seq<Pair>)
    ensures ok <==> NoNil(labels)
    ensures ok ==> r == Labels(labels)
  {
    r := [];
    for i := 0 to |labels|
      invariant NoNil(labels[..i]) && |r| == i && forall j :: 0 <= j < i ==> r[j] == labels[j].value
    {
      if labels[i].None? {
        return false, r;
      }
      assert labels[..i + 1] == labels[..i] + [labels[i]];
      r := r + [labels[i].value];
    }
    assert labels[..|labels|] == labels;
    ok := true;
  }

  /** createLabelSet followed by addSample. From here on `ok` is false if the code
      panics, which ends the whole call. */
  method Emit(cfg: Settings, d: Descriptor, index: Index, labels: seq<Option<Pair>>, extras: seq<string>, value: real, time: UInt64)
    returns (ok: bool)
    requires index.Valid()
    modifies index
    ensures ok <==> NoNil(labels)
    ensures index.Valid()
    ensures ok ==> index.planned == old(index.planned) + [Plan(cfg, d, labels, extras, value, time)]
  {
    var ls;
    ok, ls := ReadLabels(labels);
    if ok {
      var s := CreateLabelSet(cfg.u, ls, extras);
      index.AddSample(Some(Sample(value, ConvertTimeStamp(time))), Some(s), d.ty, Plan(cfg, d, labels, extras, value, time));
    }
  }

  method AddInts(cfg: Settings, d: Descriptor, index: Index, pts: seq<Option<IntPoint>>) returns (ok: bool)
    requires index.Valid()
    modifies index
    ensures ok <==> AllSound(pts, SoundInt)
    ensures index.Valid() && (ok ==> index.planned == old(index.planned) + IntPlan(cfg, d, pts))
  {
    for i := 0 to |pts|
      invariant AllSound(pts[..i], SoundInt)
      invariant index.Valid() && index.planned == old(index.planned) + IntPlan(cfg, d, pts[..i])
    {
      SoundStep(pts, SoundInt, i);
      assert pts[..i + 1][..i] == pts[..i];
      var pt := pts[i];
      if pt.None? {
        continue;
      }
      ok := Emit(cfg, d, index, pt.value.labels, NameOnly(cfg, d), pt.value.value as real, pt.value.time);
      if !ok {
        return;
      }
      Extend(old(index.planned), IntPlan(cfg, d, pts[..i]),
             [Plan(cfg, d, pt.value.labels, NameOnly(cfg, d), pt.value.value as real, pt.value.time)]);
    }
    assert pts[..|pts|] == pts;
    ok := true;
  }

  method AddDoubles(cfg: Settings, d: Descriptor, index: Index, pts: seq<Option<DoublePoint>>) returns (ok: bool)
    requires index.Valid()
    modifies index
    ensures ok <==> AllSound(pts, SoundDouble)
    ensures index.Valid() && (ok ==> index.planned == old(index.planned) + DoublePlan(cfg, d, pts))
  {
    for i := 0 to |pts|
      invariant AllSound(pts[..i], SoundDouble)
      invariant index.Valid() && index.planned == old(index.planned) + DoublePlan(cfg, d, pts[..i])
    {
      SoundStep(pts, SoundDouble, i);
      assert pts[..i + 1][..i] == pts[..i];
      var pt := pts[i];
      if pt.None? {
        continue;
      }
      ok := Emit(cfg, d, index, pt.value.labels, NameOnly(cfg, d), pt.value.value, pt.value.time);
      if !ok {
        return;
      }
      Extend(old(index.planned), DoublePlan(cfg, d, pts[..i]),
             [Plan(cfg, d, pt.value.labels, NameOnly(cfg, d), pt.value.value, pt.value.time)]);
    }
    assert pts[..|pts|] == pts;
    ok := true;
  }

  method AddHistogramPoint(cfg: Settings, d: Descriptor, index: Index, pt: HistogramPoint) returns (ok: bool)
    requires index.Valid()
    modifies index
    ensures ok <==> SoundHistogram(pt)
    ensures index.Valid() && (ok ==> index.planned == old(index.planned) + HistogramPointPlan(cfg, d, pt))
  {
    ok := AddSumAndCount(cfg, d, index, pt.labels, pt.sum, pt.count, pt.time);
    if !ok {
      return;
    }
    var total;
    ok, total := AddBuckets(cfg, d, index, pt);
    if !ok {
      return;
    }
    ok := Emit(cfg, d, index, pt.labels, InfLabels(cfg, d), total as real, pt.time);
    ghost var head := SumAndCount(cfg, d, pt.labels, pt.sum, pt.count, pt.time);
    ghost var buckets := BucketPlan(cfg, d, pt, |pt.buckets|);
    ghost var inf := [Plan(cfg, d, pt.labels, InfLabels(cfg, d), total as real, pt.time)];
    Extend(old(index.planned), head, buckets);
    Extend(old(index.planned), head + buckets, inf);
  }

  method AddSumAndCount(cfg: Settings, d: Descriptor, index: Index, labels: seq<Option<Pair>>, sum: real, count: UInt64, time: UInt64)
    returns (ok: bool)
    requires index.Valid()
    modifies index
    ensures ok <==> NoNil(labels)
    ensures index.Valid() && (ok ==> index.planned == old(index.planned) + SumAndCount(cfg, d, labels, sum, count, time))
  {
    ok := Emit(cfg, d, index, labels, Suffixed(cfg, d, "_sum"), sum, time);
    if ok {
      ok := Emit(cfg, d, index, labels, Suffixed(cfg, d, "_count"), count as real, time);
    }
  }

  method AddBuckets(cfg: Settings, d: Descriptor, index: Index, pt: HistogramPoint) returns (ok: bool, total: UInt64)
    requires index.Valid() && NoNil(pt.labels)
    modifies index
    ensures ok <==> NoNil(pt.buckets) && |pt.buckets| <= |pt.bounds|
    ensures ok ==> total == Total(Counts(pt.buckets))
    ensures index.Valid() && (ok ==> index.planned == old(index.planned) + BucketPlan(cfg, d, pt, |pt.buckets|))
  {
    total := 0;
    for le := 0 to |pt.buckets|
      invariant le <= |pt.bounds| && forall k :: 0 <= k < le ==> pt.buckets[k].Some?
      invariant total == Total(Counts(pt.buckets)[..le])
      invariant index.Valid() && index.planned == old(index.planned) + BucketPlan(cfg, d, pt, le)
    {
      if pt.buckets[le].None? || le >= |pt.bounds| {
        return false, total;
      }
      AddBucket(cfg, d, index, pt, le, old(index.planned));
      total := WrappingAdd(total, pt.buckets[le].value);
    }
    assert Counts(pt.buckets)[..|pt.buckets|] == Counts(pt.buckets);
    ok := true;
  }

  method AddBucket(cfg: Settings, d: Descriptor, index: Index, pt: HistogramPoint, le: nat, ghost ps: seq<Planned>)
    requires le < |pt.buckets| && le < |pt.bounds| && pt.buckets[le].Some? && NoNil(pt.labels)
    requires index.Valid() && index.planned == ps + BucketPlan(cfg, d, pt, le)
    modifies index
    ensures index.Valid() && index.planned == ps + BucketPlan(cfg, d, pt, le + 1)
    ensures Total(Counts(pt.buckets)[..le + 1]) == WrappingAdd(Total(Counts(pt.buckets)[..le]), pt.buckets[le].value)
  {
    var ok := Emit(cfg, d, index, pt.labels, BucketLabels(cfg, d, pt.bounds[le]), pt.buckets[le].value as real, pt.time);
    BucketStep(cfg, d, pt, le, ps);
    TotalStep(Counts(pt.buckets), le);
  }

  lemma TotalStep(counts: seq<UInt64>, i: nat)
    requires i < |counts|
    ensures Total(counts[..i + 1]) == WrappingAdd(Total(counts[..i]), counts[i])
  {
    assert counts[..i + 1][..i] == counts[..i];
  }

  lemma BucketStep(cfg: Settings, d: Descriptor, pt: HistogramPoint, i: nat, ps: seq<Planned>)
    requires i < |pt.buckets|
    ensures ps + BucketPlan(cfg, d, pt, i) + [BucketSample(cfg, d, pt, i)] == ps + BucketPlan(cfg, d, pt, i + 1)
  {
    assert BucketPlan(cfg, d, pt, i) + [BucketSample(cfg, d, pt, i)] == BucketPlan(cfg, d, pt, i + 1);
    Extend(ps, BucketPlan(cfg, d, pt, i), [BucketSample(cfg, d, pt, i)]);
  }

  method AddHistograms(cfg: Settings, d: Descriptor, index: Index, pts: seq<Option<HistogramPoint>>) returns (ok: bool)
    requires index.Valid()
    modifies index
    ensures ok <==> AllSound(pts, SoundHistogram)
    ensures index.Valid() && (ok ==> index.planned == old(index.planned) + HistogramPlan(cfg, d, pts))
  {
    for i := 0 to |pts|
      invariant AllSound(pts[..i], SoundHistogram)
      invariant index.Valid() && index.planned == old(index.planned) + HistogramPlan(cfg, d, pts[..i])
    {
      SoundStep(pts, SoundHistogram, i);
      HistogramStep(cfg, d, pts, i, old(index.planned));
      if pts[i].None? {
        continue;
      }
      ok := AddHistogramPoint(cfg, d, index, pts[i].value);
      if !ok {
        return;
      }
    }
    assert pts[..|pts|] == pts;
    ok := true;
  }

  lemma HistogramStep(cfg: Settings, d: Descriptor, pts: seq<Option<HistogramPoint>>, i: nat, ps: seq<Planned>)
    requires i < |pts|
    ensures ps + HistogramPlan(cfg, d, pts[..i + 1])
         == if pts[i].None? then ps + HistogramPlan(cfg, d, pts[..i])
            else ps + HistogramPlan(cfg, d, pts[..i]) + HistogramPointPlan(cfg, d, pts[i].value)
  {
    assert pts[..i + 1][..i] == pts[..i];
    if pts[i].Some? {
      Extend(ps, HistogramPlan(cfg, d, pts[..i]), HistogramPointPlan(cfg, d, pts[i].value));
    } else {
      Extend(ps, HistogramPlan(cfg, d, pts[..i]), []);
    }
  }

  method AddSummaryPoint(cfg: Settings, d: Descriptor, index: Index, pt: SummaryPoint) returns (ok: bool)
    requires index.Valid()
    modifies index
    ensures ok <==> SoundSummary(pt)
    ensures index.Valid() && (ok ==> index.planned == old(index.planned) + SummaryPointPlan(cfg, d, pt))
  {
    ok := AddSumAndCount(cfg, d, index, pt.labels, pt.sum, pt.count, pt.time);
    if !ok {
      return;
    }
    ok := AddQuantiles(cfg, d, index, pt);
    Extend(old(index.planned), SumAndCount(cfg, d, pt.labels, pt.sum, pt.count, pt.time),
           QuantilePlan(cfg, d, pt, |pt.quantiles|));
  }

  method AddQuantiles(cfg: Settings, d: Descriptor, index: Index, pt: SummaryPoint) returns (ok: bool)
    requires index.Valid() && NoNil(pt.labels)
    modifies index
    ensures ok <==> NoNil(pt.quantiles)
    ensures index.Valid() && (ok ==> index.planned == old(index.planned) + QuantilePlan(cfg, d, pt, |pt.quantiles|))
  {
    for i := 0 to |pt.quantiles|
      invariant forall k :: 0 <= k < i ==> pt.quantiles[k].Some?
      invariant index.Valid() && index.planned == old(index.planned) + QuantilePlan(cfg, d, pt, i)
    {
      if pt.quantiles[i].None? {
        return false;
      }
      AddQuantile(cfg, d, index, pt, i, old(index.planned));
    }
    ok := true;
  }

  method AddQuantile(cfg: Settings, d: Descriptor, index: Index, pt: SummaryPoint, i: nat, ghost ps: seq<Planned>)
    requires i < |pt.quantiles| && pt.quantiles[i].Some? && NoNil(pt.labels)
    requires index.Valid() && index.planned == ps + QuantilePlan(cfg, d, pt, i)
    modifies index
    ensures index.Valid() && index.planned == ps + QuantilePlan(cfg, d, pt, i + 1)
  {
    var q := pt.quantiles[i].value;
    var ok := Emit(cfg, d, index, pt.labels, QuantileLabels(cfg, d, q.percentile), q.value, pt.time);
    QuantileStep(cfg, d, pt, i, ps);
  }

  lemma QuantileStep(cfg: Settings, d: Descriptor, pt: SummaryPoint, i: nat, ps: seq<Planned>)
    requires i < |pt.quantiles|
    ensures ps + QuantilePlan(cfg, d, pt, i) + [QuantileSample(cfg, d, pt, i)] == ps + QuantilePlan(cfg, d, pt, i + 1)
  {
    assert QuantilePlan(cfg, d, pt, i) + [QuantileSample(cfg, d, pt, i)] == QuantilePlan(cfg, d, pt, i + 1);
    Extend(ps, QuantilePlan(cfg, d, pt, i), [QuantileSample(cfg, d, pt, i)]);
  }

  /** Unlike the other loops, this one does not skip nil points. */
  method AddSummaries(cfg: Settings, d: Descriptor, index: Index, pts: seq<Option<SummaryPoint>>) returns (ok: bool)
    requires index.Valid()
    modifies index
    ensures ok <==> SoundSummaries(pts)
    ensures index.Valid() && (ok ==> index.planned == old(index.planned) + SummaryPlan(cfg, d, pts))
  {
    for i := 0 to |pts|
      invariant SoundSummaries(pts[..i])
      invariant index.Valid() && index.planned == old(index.planned) + SummaryPlan(cfg, d, pts[..i])
    {
      SummarySoundStep(pts, i);
      if pts[i].None? {
        return false;
      }
      SummaryStep(cfg, d, pts, i, old(index.planned));
      ok := AddSummaryPoint(cfg, d, index, pts[i].value);
      if !ok {
        return;
      }
    }
    assert pts[..|pts|] == pts;
    ok := true;
  }

  lemma SummaryStep(cfg: Settings, d: Descriptor, pts: seq<Option<SummaryPoint>>, i: nat, ps: seq<Planned>)
    requires i < |pts| && pts[i].Some?
    ensures ps + SummaryPlan(cfg, d, pts[..i + 1]) == ps + SummaryPlan(cfg, d, pts[..i]) + SummaryPointPlan(cfg, d, pts[i].value)
  {
    assert pts[..i + 1][..i] == pts[..i];
    Extend(ps, SummaryPlan(cfg, d, pts[..i]), SummaryPointPlan(cfg, d, pts[i].value));
  }

  /** The body of the innermost loop of PushMetrics: validate, then dispatch on
      the type. A rejected metric adds no sample; `ok` is false on a panic. */
  method HandleMetric(cfg: Settings, index: Index, m: Metric) returns (ok: bool, err: Option<string>)
    requires index.Valid()
    modifies index
    ensures ok <==> Translatable(m)
    ensures ok ==> (err.Some? <==> Refused(m))
    ensures ok ==> (err.None? <==> MetricPlan(cfg, m).Some?)
    ensures index.Valid() && (ok ==> index.planned == old(index.planned) + PlanOf(cfg, m))
  {
    ok, err := true, None;
    if !ValidateMetrics(m.descriptor) {
      return true, Some("invalid temporality and type combination");
    }
    var d := m.descriptor.value;
    match d.ty {
      case MonotonicInt64 | Int64 =>
        if m.ints.None? {
          return true, Some("nil data point field in metric " + d.name);
        }
        ok := AddInts(cfg, d, index, m.ints.value);
      case MonotonicDouble | Double =>
        if m.doubles.None? {
          return true, Some("nil data point field in metric " + d.name);
        }
        ok := AddDoubles(cfg, d, index, m.doubles.value);
      case Histogram =>
        if m.histograms.None? {
          return true, Some("invalid metric type: wants histogram points");
        }
        ok := AddHistograms(cfg, d, index, m.histograms.value);
      case Summary =>
        if m.summaries.None? {
          return true, Some("invalid metric type: wants summary points");
        }
        ok := AddSummaries(cfg, d, index, m.summaries.value);
    }
  }

  function PlanOf(cfg: Settings, m: Metric): seq<Planned> {
    if MetricPlan(cfg, m).Some? then MetricPlan(cfg, m).value else []
  }

  // ----------------------------------------------------------- a whole batch

  /** The metrics of a batch, nil ones included, in the order they are visited. */
  function Metrics(batch: Batch): seq<Option<Metric>> {
    if batch == [] then []
    else
      var rm := batch[|batch| - 1];
      Metrics(batch[..|batch| - 1]) + if rm.None? then [] else LibraryMetrics(rm.value)
  }

  function LibraryMetrics(ilms: seq<Option<seq<Option<Metric>>>>): seq<Option<Metric>> {
    if ilms == [] then []
    else
      var ilm := ilms[|ilms| - 1];
      LibraryMetrics(ilms[..|ilms| - 1]) + if ilm.None? then [] else ilm.value
  }

  ghost predicate AllTranslatable(ms: seq<Option<Metric>>) {
    forall i :: 0 <= i < |ms| && ms[i].Some? ==> Translatable(ms[i].value)
  }

  function BatchPlan(cfg: Settings, ms: seq<Option<Metric>>): seq<Planned> {
    if ms == [] then []
    else BatchPlan(cfg, ms[..|ms| - 1]) + PlanOfEntry(cfg, ms[|ms| - 1])
  }

  /** How many metrics are rejected. */
  function Rejected(cfg: Settings, ms: seq<Option<Metric>>): nat {
    if ms == [] then 0
    else
      var m := ms[|ms| - 1];
      Rejected(cfg, ms[..|ms| - 1]) + if m.Some? && MetricPlan(cfg, m.value).None? then 1 else 0
  }

  function PlanOfEntry(cfg: Settings, m: Option<Metric>): seq<Planned> {
    if m.None? then [] else PlanOf(cfg, m.value)
  }

  lemma {:induction false} BatchConcat(cfg: Settings, ms: seq<Option<Metric>>, ns: seq<Option<Metric>>)
    ensures BatchPlan(cfg, ms + ns) == BatchPlan(cfg, ms) + BatchPlan(cfg, ns)
    decreases |ns|
  {
    if ns == [] {
      assert ms + ns == ms;
    } else {
      var init, m := ns[..|ns| - 1], ns[|ns| - 1];
      BatchConcat(cfg, ms, init);
      assert (ms + ns)[..|ms + ns| - 1] == ms + init;
      Extend(BatchPlan(cfg, ms), BatchPlan(cfg, init), PlanOfEntry(cfg, m));
    }
  }

  lemma {:induction false} RejectedConcat(cfg: Settings, ms: seq<Option<Metric>>, ns: seq<Option<Metric>>)
    ensures Rejected(cfg, ms + ns) == Rejected(cfg, ms) + Rejected(cfg, ns)
    decreases |ns|
  {
    if ns == [] {
      assert ms + ns == ms;
    } else {
      RejectedConcat(cfg, ms, ns[..|ns| - 1]);
      assert (ms + ns)[..|ms + ns| - 1] == ms + ns[..|ns| - 1];
    }
  }

  lemma TranslatableConcat(ms: seq<Option<Metric>>, ns: seq<Option<Metric>>)
    ensures AllTranslatable(ms) && AllTranslatable(ns) ==> AllTranslatable(ms + ns)
  {
  }

  lemma BatchStep(cfg: Settings, ps: seq<Planned>, done: seq<Option<Metric>>, mine: seq<Option<Metric>>)
    ensures ps + BatchPlan(cfg, done) + BatchPlan(cfg, mine) == ps + BatchPlan(cfg, done + mine)
    ensures Rejected(cfg, done) + Rejected(cfg, mine) == Rejected(cfg, done + mine)
    ensures AllTranslatable(done) && AllTranslatable(mine) ==> AllTranslatable(done + mine)
  {
    TranslatableConcat(done, mine);
    BatchConcat(cfg, done, mine);
    RejectedConcat(cfg, done, mine);
    Extend(ps, BatchPlan(cfg, done), BatchPlan(cfg, mine));
  }

  /** Where the batch's refused metrics are. */
  ghost function RefusedAt(ms: seq<Option<Metric>>): set<nat> {
    set i: nat | i < |ms| && ms[i].Some? && Refused(ms[i].value)
  }

  lemma {:induction false} RejectedAreRefused(cfg: Settings, ms: seq<Option<Metric>>)
    ensures Rejected(cfg, ms) == |RefusedAt(ms)|
  {
    if ms == [] {
      assert RefusedAt(ms) == {};
    } else {
      var n := |ms| - 1;
      RejectedAreRefused(cfg, ms[..n]);
      RefusedLast(ms);
      if ms[n].Some? {
        RefusedHasNoPlan(cfg, ms[n].value);
      }
    }
  }

  lemma RefusedLast(ms: seq<Option<Metric>>)
    requires ms != []
    ensures var n := |ms| - 1;
            |RefusedAt(ms)| == |RefusedAt(ms[..n])| + if ms[n].Some? && Refused(ms[n].value) then 1 else 0
  {
    var n := |ms| - 1;
    var here: set<nat> := if ms[n].Some? && Refused(ms[n].value) then {n} else {};
    assert RefusedAt(ms) == RefusedAt(ms[..n]) + here;
  }

  /** Every metric's samples are among those of the batch, after those of the
      metrics before it. */
  lemma BatchPlanAt(cfg: Settings, ms: seq<Option<Metric>>, i: nat)
    requires i < |ms|
    ensures FoundAt(BatchPlan(cfg, ms), |BatchPlan(cfg, ms[..i])|, PlanOfEntry(cfg, ms[i]))
  {
    assert ms[..i + 1][..i] == ms[..i];
    assert ms == ms[..i + 1] + ms[i + 1..];
    BatchConcat(cfg, ms[..i + 1], ms[i + 1..]);
    FoundAtEnd(BatchPlan(cfg, ms[..i]), PlanOfEntry(cfg, ms[i]));
    FoundInLonger(BatchPlan(cfg, ms[..i + 1]), |BatchPlan(cfg, ms[..i])|, PlanOfEntry(cfg, ms[i]), BatchPlan(cfg, ms[i + 1..]));
  }

  /** Batches are visited in order, nil pointers skipped. */
  lemma {:induction false} MetricsInOrder(a: Batch, b: Batch)
    ensures Metrics(a + b) == Metrics(a) + Metrics(b)
    decreases |b|
  {
    if b == [] {
      assert a + b == a;
    } else {
      MetricsInOrder(a, b[..|b| - 1]);
      assert (a + b)[..|a + b| - 1] == a + b[..|b| - 1];
    }
  }

  lemma {:induction false} LibrariesInOrder(a: seq<Option<seq<Option<Metric>>>>, b: seq<Option<seq<Option<Metric>>>>)
    ensures LibraryMetrics(a + b) == LibraryMetrics(a) + LibraryMetrics(b)
    decreases |b|
  {
    if b == [] {
      assert a + b == a;
    } else {
      LibrariesInOrder(a, b[..|b| - 1]);
      assert (a + b)[..|a + b| - 1] == a + b[..|b| - 1];
    }
  }

  lemma OneOfEach(ilms: seq<Option<seq<Option<Metric>>>>, ms: seq<Option<Metric>>)
    ensures Metrics([None]) == [] && Metrics([Some(ilms)]) == LibraryMetrics(ilms)
    ensures LibraryMetrics([None]) == [] && LibraryMetrics([Some(ms)]) == ms
  {
    var n: Batch, o: Batch := [None], [Some(ilms)];
    assert n[..0] == [] && o[..0] == [];
    var l: seq<Option<seq<Option<Metric>>>>, k: seq<Option<seq<Option<Metric>>>> := [None], [Some(ms)];
    assert l[..0] == [] && k[..0] == [];
  }

  /** At most every metric is rejected, and none is rejected exactly when each
      non-nil metric has a plan. */
  lemma {:induction false} RejectedCounts(cfg: Settings, ms: seq<Option<Metric>>)
    ensures Rejected(cfg, ms) <= |ms|
    ensures Rejected(cfg, ms) == 0 <==> forall i :: 0 <= i < |ms| && ms[i].Some? ==> MetricPlan(cfg, ms[i].value).Some?
  {
    if ms != [] {
      var init := ms[..|ms| - 1];
      RejectedCounts(cfg, init);
      assert forall i :: 0 <= i < |init| ==> ms[i] == init[i];
    }
  }

  method PushLibrary(cfg: Settings, index: Index, ms: seq<Option<Metric>>) returns (ok: bool, errs: seq<string>)
    requires index.Valid()
    modifies index
    ensures ok <==> AllTranslatable(ms)
    ensures ok ==> |errs| == Rejected(cfg, ms)
    ensures index.Valid() && (ok ==> index.planned == old(index.planned) + BatchPlan(cfg, ms))
  {
    ok, errs := true, [];
    for i := 0 to |ms|
      invariant AllTranslatable(ms[..i])
      invariant |errs| == Rejected(cfg, ms[..i])
      invariant index.Valid() && index.planned == old(index.planned) + BatchPlan(cfg, ms[..i])
    {
      TranslatableStep(ms, i);
      MetricStep(cfg, ms, i, old(index.planned));
      if ms[i].None? {
        continue;
      }
      var err;
      ok, err := HandleMetric(cfg, index, ms[i].value);
      if !ok {
        return;
      }
      if err.Some? {
        errs := errs + [err.value];
      }
    }
    assert ms[..|ms|] == ms;
    ok := true;
  }

  lemma MetricStep(cfg: Settings, ms: seq<Option<Metric>>, i: nat, ps: seq<Planned>)
    requires i < |ms|
    ensures ps + BatchPlan(cfg, ms[..i + 1]) == ps + BatchPlan(cfg, ms[..i]) + PlanOfEntry(cfg, ms[i])
    ensures Rejected(cfg, ms[..i + 1]) == Rejected(cfg, ms[..i]) + if ms[i].Some? && MetricPlan(cfg, ms[i].value).None? then 1 else 0
  {
    assert ms[..i + 1][..i] == ms[..i];
    Extend(ps, BatchPlan(cfg, ms[..i]), PlanOfEntry(cfg, ms[i]));
  }

  lemma TranslatableStep(ms: seq<Option<Metric>>, i: nat)
    requires i < |ms|
    ensures AllTranslatable(ms) ==> (ms[i].Some? ==> Translatable(ms[i].value))
    ensures AllTranslatable(ms[..i]) && (ms[i].Some? ==> Translatable(ms[i].value)) ==> AllTranslatable(ms[..i + 1])
  {
  }

  method PushResource(cfg: Settings, index: Index, ilms: seq<Option<seq<Option<Metric>>>>) returns (ok: bool, errs: seq<string>)
    requires index.Valid()
    modifies index
    ensures ok <==> AllTranslatable(LibraryMetrics(ilms))
    ensures ok ==> |errs| == Rejected(cfg, LibraryMetrics(ilms))
    ensures index.Valid() && (ok ==> index.planned == old(index.planned) + BatchPlan(cfg, LibraryMetrics(ilms)))
  {
    ok, errs := true, [];
    ghost var done := [];
    for i := 0 to |ilms|
      invariant done == LibraryMetrics(ilms[..i])
      invariant AllTranslatable(done) && |errs| == Rejected(cfg, done)
      invariant index.Valid() && index.planned == old(index.planned) + BatchPlan(cfg, done)
    {
      LibraryPrefix(ilms, i);
      if ilms[i].None? {
        continue;
      }
      ghost var mine := ilms[i].value;
      var more;
      ok, more := PushLibrary(cfg, index, ilms[i].value);
      if !ok {
        return;
      }
      BatchStep(cfg, old(index.planned), done, mine);
      errs, done := errs + more, done + mine;
    }
    assert ilms[..|ilms|] == ilms;
    ok := true;
  }

  lemma LibraryPrefix(ilms: seq<Option<seq<Option<Metric>>>>, i: nat)
    requires i < |ilms|
    ensures LibraryMetrics(ilms[..i + 1]) == LibraryMetrics(ilms[..i]) + if ilms[i].None? then [] else ilms[i].value
    ensures AllTranslatable(LibraryMetrics(ilms)) && ilms[i].Some? ==> AllTranslatable(ilms[i].value)
  {
    assert ilms[..i + 1][..i] == ilms[..i];
    LibraryPrefixOf(ilms, i + 1);
    if ilms[i].Some? {
      Middle(LibraryMetrics(ilms[..i]), ilms[i].value, LibraryMetrics(ilms));
    }
  }

  lemma Middle(a: seq<Option<Metric>>, b: seq<Option<Metric>>, ms: seq<Option<Metric>>)
    requires a + b <= ms
    ensures AllTranslatable(ms) ==> AllTranslatable(b)
  {
    assert forall i :: 0 <= i < |b| ==> b[i] == ms[|a| + i];
  }

  lemma {:induction false} LibraryPrefixOf(ilms: seq<Option<seq<Option<Metric>>>>, i: nat)
    requires i <= |ilms|
    ensures LibraryMetrics(ilms[..i]) <= LibraryMetrics(ilms)
    decreases |ilms|
  {
    if i == |ilms| {
      assert ilms[..i] == ilms;
    } else {
      LibraryPrefixOf(ilms[..|ilms| - 1], i);
      assert ilms[..|ilms| - 1][..i] == ilms[..i];
    }
  }

  lemma {:induction false} MetricsPrefixOf(batch: Batch, i: nat)
    requires i <= |batch|
    ensures Metrics(batch[..i]) <= Metrics(batch)
    decreases |batch|
  {
    if i == |batch| {
      assert batch[..i] == batch;
    } else {
      MetricsPrefixOf(batch[..|batch| - 1], i);
      assert batch[..|batch| - 1][..i] == batch[..i];
    }
  }

  lemma MetricsPrefix(batch: Batch, i: nat)
    requires i < |batch|
    ensures Metrics(batch[..i + 1]) == Metrics(batch[..i]) + if batch[i].None? then [] else LibraryMetrics(batch[i].value)
    ensures AllTranslatable(Metrics(batch)) && batch[i].Some? ==> AllTranslatable(LibraryMetrics(batch[i].value))
  {
    assert batch[..i + 1][..i] == batch[..i];
    MetricsPrefixOf(batch, i + 1);
    if batch[i].Some? {
      Middle(Metrics(batch[..i]), LibraryMetrics(batch[i].value), Metrics(batch));
    }
  }

  method FillIndex(cfg: Settings, index: Index, batch: Batch) returns (ok: bool, errs: seq<string>)
    requires index.Valid()
    modifies index
    ensures ok <==> AllTranslatable(Metrics(batch))
    ensures ok ==> |errs| == Rejected(cfg, Metrics(batch))
    ensures index.Valid() && (ok ==> index.planned == old(index.planned) + BatchPlan(cfg, Metrics(batch)))
  {
    ok, errs := true, [];
    ghost var done := [];
    for i := 0 to |batch|
      invariant done == Metrics(batch[..i])
      invariant AllTranslatable(done) && |errs| == Rejected(cfg, done)
      invariant index.Valid() && index.planned == old(index.planned) + BatchPlan(cfg, done)
    {
      MetricsPrefix(batch, i);
      if batch[i].None? {
        continue;
      }
      ghost var mine := LibraryMetrics(batch[i].value);
      var more;
      ok, more := PushResource(cfg, index, batch[i].value);
      if !ok {
        return;
      }
      BatchStep(cfg, old(index.planned), done, mine);
      errs, done := errs + more, done + mine;
    }
    assert batch[..|batch|] == batch;
    ok := true;
  }

  /** What a push does to an open exporter. */
  ghost predicate Pushed(cfg: Settings, batch: Batch, es: seq<Event>, dropped: nat, err: Option<string>, sent: Option<seq<TimeSeries>>)
  {
    && RealisesAll(es, BatchPlan(cfg, Metrics(batch)))
    && (sent.Some? ==> exists order :: Emitted(sent.value, AddedAll(map[], es), order))
    && dropped == (if sent.Some? then Rejected(cfg, Metrics(batch)) else |Metrics(batch)|)
    && (err.None? <==> dropped == 0)
  }

  /** PushMetrics. `sendOk` is what the transport answers; `sent` is the request
      that reached the endpoint. An empty index is never sent. The call panics,
      and `ok` is false, exactly when a metric of the batch is not translatable;
      then nothing is sent. */
  method PushMetrics(cfg: Settings, closed: bool, batch: Batch, sendOk: bool)
    returns (ok: bool, dropped: nat, err: Option<string>, sent: Option<seq<TimeSeries>>, ghost es: seq<Event>)
    ensures closed ==> ok && dropped == |Metrics(batch)| && err.Some? && sent.None?
    ensures !closed ==> (ok <==> AllTranslatable(Metrics(batch)))
    ensures !closed && ok ==> Pushed(cfg, batch, es, dropped, err, sent)
    ensures !closed ==> (sent.Some? <==> ok && sendOk && BatchPlan(cfg, Metrics(batch)) != [])
  {
    if closed {
      return true, |Metrics(batch)|, Some("shutdown has been called"), None, [];
    }
    var index := new Index();
    var errs;
    ok, errs := FillIndex(cfg, index, batch);
    if !ok {
      return false, 0, None, None, [];
    }
    assert index.planned == BatchPlan(cfg, Metrics(batch));
    es := index.events;
    dropped := |errs|;
    EmptyIndex(es);
    var req; ghost var order;
    req, order := WrapTimeSeries(index.series);
    if req.None? {
      dropped := |Metrics(batch)|;
      errs := errs + ["invalid TsMap: cannot be empty map"];
      sent := None;
    } else if !sendOk {
      dropped := |Metrics(batch)|;
      errs := errs + ["server returned an error"];
      sent := None;
    } else {
      sent := req;
    }
    if dropped != 0 {
      err := CombineErrors(errs);
    } else {
      err := None;
    }
  }

  /** A batch on which the call panics: one bucket and no bound. */
  lemma MissingBound(name: string, pt: HistogramPoint)
    requires |pt.buckets| == 1 && pt.bounds == []
    ensures var m := Metric(Some(Descriptor(name, Histogram, Cumulative)), None, None, Some([Some(pt)]), None);
            !AllTranslatable(Metrics([Some([Some([Some(m)])])]))
  {
    var m := Metric(Some(Descriptor(name, Histogram, Cumulative)), None, None, Some([Some(pt)]), None);
    var ilms: seq<Option<seq<Option<Metric>>>> := [Some([Some(m)])];
    var batch: Batch := [Some(ilms)];
    assert ilms[..0] == [] && batch[..0] == [];
    assert LibraryMetrics(ilms) == [Some(m)];
    assert Metrics(batch) == [Some(m)];
    assert !AllSound([Some(pt)], SoundHistogram) by {
      assert [Some(pt)][0] == Some(pt);
    }
    assert Metrics(batch)[0] == Some(m) && !Translatable(m);
  }

  lemma EmptyIndex(es: seq<Event>)
    ensures AddedAll(map[], es) == map[] <==> es == []
  {
    if es != [] {
      assert es[|es| - 1].sig in AddedAll(map[], es);
    }
  }

  /** The accounting a caller may rely on: dropped are the refused metrics, or, if
      nothing was sent, all; if nothing of a batch with metrics was dropped, every
      non-nil metric was translated; and each sample sent is sent exactly once. */
  lemma DroppedAccounting(cfg: Settings, batch: Batch, es: seq<Event>, dropped: nat, err: Option<string>, sent: Option<seq<TimeSeries>>)
    requires Pushed(cfg, batch, es, dropped, err, sent)
    ensures dropped <= |Metrics(batch)|
    ensures dropped == 0 && |Metrics(batch)| > 0 ==>
              && sent.Some?
              && (forall i :: 0 <= i < |Metrics(batch)| && Metrics(batch)[i].Some? ==> MetricPlan(cfg, Metrics(batch)[i].value).Some?)
    ensures dropped == if sent.Some? then |RefusedAt(Metrics(batch))| else |Metrics(batch)|
    ensures sent.Some? ==> multiset(Flat(sent.value)) == multiset(Samples(es)) && |Flat(sent.value)| == |BatchPlan(cfg, Metrics(batch))|
  {
    RejectedCounts(cfg, Metrics(batch));
    RejectedAreRefused(cfg, Metrics(batch));
    if sent.Some? {
      var order :| Emitted(sent.value, AddedAll(map[], es), order);
      EverySampleOnce(es, sent.value, order);
      SamplesSize(es);
      assert |multiset(Flat(sent.value))| == |Flat(sent.value)|;
    }
  }

  /** Where a sample of the batch travels: if the batch's labels are clean, the
      request has a series with the sample's type and labels, which holds just
      the batch's samples of that type and label set, in the batch's order. */
  lemma BatchIsGrouped(cfg: Settings, batch: Batch, es: seq<Event>, dropped: nat, err: Option<string>, sent: Option<seq<TimeSeries>>, i: nat)
    requires Pushed(cfg, batch, es, dropped, err, sent) && sent.Some? && i < |es|
    requires forall j :: 0 <= j < |BatchPlan(cfg, Metrics(batch))| ==> CleanContent(BatchPlan(cfg, Metrics(batch))[j].content)
    ensures TimeSeries(es[i].sorted, SamplesLike(es, es[i].ty, multiset(es[i].labels))) in sent.value
    ensures Realises(es[i], BatchPlan(cfg, Metrics(batch))[i])
  {
    var order :| Emitted(sent.value, AddedAll(map[], es), order);
    RequestIsGrouped(es, BatchPlan(cfg, Metrics(batch)), sent.value, order, i);
  }

  /** If the points that end up in one series come in nondecreasing nanoseconds,
      every series of the request is in time order. */
  lemma BatchKeepsTimeOrder(cfg: Settings, batch: Batch, es: seq<Event>, dropped: nat, err: Option<string>, sent: Option<seq<TimeSeries>>, k: nat)
    requires Pushed(cfg, batch, es, dropped, err, sent) && sent.Some? && k < |sent.value|
    requires forall i, j :: 0 <= i < j < |es| && es[i].sig == es[j].sig ==>
                              BatchPlan(cfg, Metrics(batch))[i].nanos <= BatchPlan(cfg, Metrics(batch))[j].nanos
    ensures InTimeOrder(sent.value[k].samples)
  {
    var order :| Emitted(sent.value, AddedAll(map[], es), order);
    assert order[k] in order;
    PlannedKeepTimeOrder(es, BatchPlan(cfg, Metrics(batch)), order[k]);
  }

  lemma SamplesSize(es: seq<Event>)
    ensures |Samples(es)| == |es|
    ensures |multiset(Samples(es))| == |es|
  {
    if es != [] {
      SamplesSize(es[..|es| - 1]);
    }
  }
}
