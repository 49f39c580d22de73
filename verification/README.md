# OpenTelemetry collector: verified core

This project models the parts of the OpenTelemetry collector (the copy under
`internal/opentelemetry-collector`) whose correctness is hard to see, and proves
what they are relied on for. `dafny verify dfyconfig.toml` checks it.

- **Attribute values.** The pointer-based tree behind `AttributeValue`,
  `AttributeMap` and `AnyValueArray` is modelled on the heap, object by object
  (`PData.dfy`). Deep copy is the mutual recursion of the original, reuses the
  destination's storage where the original does, and is proved to copy, to share
  nothing and to write nothing else. `Slots.dfy` shows that the slice behind an
  `AttributeMap` acts as a finite map under any sequence of operations.
- **Exporting.** `Retry.dfy` is the retry loop on an arbitrary script of attempts;
  `QueueShutdown.dfy` the queue, its consumers and the shutdown sequence in every
  interleaving; `TokenPool.dfy` the OpenCensus exporter's pool of streams.
- **Prometheus remote write.** `LabelSets.dfy`, `PromLabels.dfy`,
  `SeriesIndex.dfy` and `RemoteWrite.dfy` go from a batch of metrics to the write
  request; `RemoteWriteShutdown.dfy` is the close-and-wait protocol.
- **Smaller pieces.** `FanOut.dfy`, `ConfigLoading.dfy`, `ProcessManager.dfy`,
  `SpanCounts.dfy`.

Objects that the original updates in place are classes with `modifies` clauses.
Methods on attribute values take a ghost picture (`Shape`, `Entry`) of the heap
they work on and return the new one; `Matches` ties a picture to the heap.
Protocols of several goroutines are state machines: `Enabled` and `Do` give one
step, a run is any sequence of enabled steps, and the theorems are about the state
after every run. A Go map is walked in an arbitrary order (`Seqs.Walk`).

## Where the code does less than one might expect

For each of these an equivalence says when the expectation holds, and a lemma
gives an input or a run on which it fails.

- The index agrees with grouping by type and label set only as long as signatures
  do not collide (`SeriesIndex.IndexIsGroupingIff`), and label values with dashes
  collide (`PromLabels.SignatureNeedsDashFree`; `PromLabels.DashesCollide`,
  `SeriesIndex.DashesMerge`).
- Labels whose raw keys sanitize to one name make the stored order depend on the
  walk of a Go map (`LabelSets.WalkIndependentIff`; `LabelSets.KeysClash`).
- Metrics and logs requests do not shrink on a partial error, so delivered items
  are sent again or counted as dropped (`Retry.OthersAreConservedIff`;
  `Retry.PartialCountsTwice`).
- A queue that no consumer was started on is shut down with requests in it; the
  comment in `shutdown` assumes that it drains (`QueueShutdown.OrderlyIffConsumed`;
  `QueueShutdown.LostRequest`).
- A failed write of the FluentBit configuration abandons a running child: two
  children run at once (`ProcessManager.OneChildIffNoConfig`;
  `ProcessManager.SecondChild`), the exit of the abandoned one is taken for the
  current one's (`ProcessManager.OwnExitIffNoConfig`; `ProcessManager.ForeignExit`),
  and the loop may return over a running child
  (`ProcessManager.NoneOutlivesIffNoConfig`).
- With duplicate keys `AttributeMap.Delete` may uncover or reorder another entry
  (`AttributeSlots.DeleteIsRemovalIff`; `AttributeSlots.DeleteUncovers`,
  `AttributeSlots.DeleteOvertakes`).
- A histogram point with more buckets than bounds, or a nil label, bucket,
  percentile or summary point, makes `PushMetrics` panic (`RemoteWrite.PushMetrics`; `RemoteWrite.MissingBound`).

## Model

| member | source | states |
|---|---|---|
| `PData.CopyInto` | internal/opentelemetry-collector/consumer/pdata/common.go:340-367 | deep copy terminates for every finite source; the destination's value equals the source's; only the old destination's objects are written and the copy consists of those and new ones, so a source apart from it is intact and nothing is shared; a value may be copied onto itself; the result is again a tree |
| `PData.CopySlot` | internal/opentelemetry-collector/consumer/pdata/common.go:369-374 | the same through the wrapped pointer: an existing destination object is kept, a nil one replaced by a new one |
| `PData.SetMapVal` | internal/opentelemetry-collector/consumer/pdata/common.go:291-310 | any old value becomes a map with the given contents, all of its entries and their values new objects; the argument may be the very map being replaced |
| `PData.SetArrayVal` | internal/opentelemetry-collector/consumer/pdata/common.go:317-336 | any old value becomes an array with the given contents, old array cells being overwritten in place |
| `PData.MapOf` | internal/opentelemetry-collector/consumer/pdata/common.go:224-230 | reading a map value: the map's list, or a new empty one for a nil list |
| `PData.ArrayOf` | internal/opentelemetry-collector/consumer/pdata/common.go:237-243 | reading an array value: the array itself, or a new empty one for a nil array |
| `PData.InitFromAttributeMap` | internal/opentelemetry-collector/consumer/pdata/common.go:483-500 | the list gets the argument's contents in entries that are all new, also when both are the same list |
| `PData.CloneEntries` | internal/opentelemetry-collector/consumer/pdata/common.go:488-499 | the filling loop: new, pairwise separate entries with the source's keys and values in order |
| `PData.CopyArray` | internal/opentelemetry-collector/consumer/pdata/generated_common.go:164-185 | in place or newly allocated, the destination ends with the source's elements; the in-place branch cannot be told from the allocating one by contents |
| `PData.CopyElemsInPlace` | internal/opentelemetry-collector/consumer/pdata/generated_common.go:171-177 | the in-place loop: cell after cell takes the source's value without disturbing cells already done or still to come |
| `PData.CloneElems` | internal/opentelemetry-collector/consumer/pdata/generated_common.go:178-184 | the allocating loop: new, pairwise separate elements with the source's values |
| `PData.NewEntry` | internal/opentelemetry-collector/consumer/pdata/common.go:432-436 | a new entry that owns a deep copy of the given value |
| `PData.SetScalar` | internal/opentelemetry-collector/consumer/pdata/common.go:248-287 | any old value becomes the scalar, and no other object than the value is written |
| `PData.PictureIsUnique` | internal/opentelemetry-collector/consumer/pdata/common.go:170-245 | what a value reads as is determined by the heap alone |
| `PData.NoNilIsCopyable` | internal/opentelemetry-collector/consumer/pdata/common.go:340-374 | a source without nil pointers can be copied over any destination without a nil dereference |
| `PData.CopyOntoItself` | internal/opentelemetry-collector/consumer/pdata/common.go:340-374 | a value copied onto itself keeps its contents |
| `PData.EditCopy` | internal/opentelemetry-collector/consumer/pdata/common.go:340-374 | after a copy over any destination apart from the source, arbitrary writes to every object of the copy leave the source as it was |
| `PData.EditSource` | internal/opentelemetry-collector/consumer/pdata/common.go:340-374 | after a copy over any destination apart from the source, arbitrary writes to every object of the source leave the copy as it was |
| `PData.KeyValueList.Get` | internal/opentelemetry-collector/consumer/pdata/common.go:517-524 | finds the first entry with the key, skipping nil entries; nil exactly when there is none |
| `PData.KeyValueList.Delete` | internal/opentelemetry-collector/consumer/pdata/common.go:528-537 | reports whether the key was there; the list is the one swap-with-last deletion leaves |
| `PData.KeyValueList.Insert` | internal/opentelemetry-collector/consumer/pdata/common.go:546-550 | a present key is left alone, an absent one gets a deep copy of the value in a new entry at the end; the pointers before it are the old ones |
| `PData.KeyValueList.Update` | internal/opentelemetry-collector/consumer/pdata/common.go:599-603 | a present key's value is overwritten in place by a deep copy, also of that very value; an absent key changes nothing |
| `PData.KeyValueList.Upsert` | internal/opentelemetry-collector/consumer/pdata/common.go:645-651 | overwrites a present key, also with its own value, and appends an absent one |
| `PData.KeyValueList.UpdateScalar` | internal/opentelemetry-collector/consumer/pdata/common.go:607-635 | the scalar updates, which also work on a stored nil value |
| `PData.KeyValueList.UpsertScalar` | internal/opentelemetry-collector/consumer/pdata/common.go:656-695 | the scalar upserts |
| `PData.KeyValueList.AddScalar` | internal/opentelemetry-collector/consumer/pdata/common.go:399-425 | a new entry with the scalar at the end, other entries untouched |
| `PData.KeyValueList.InitFromMap` | internal/opentelemetry-collector/consumer/pdata/common.go:458-476 | for any order of the walk the list holds deep copies of the map's values under its keys, all new |
| `PData.KeyValueList.CopyTo` | internal/opentelemetry-collector/consumer/pdata/common.go:733-766 | in place or newly allocated, the destination ends with the source's contents, shares nothing with it and is again a tree |
| `PData.KeyValueList.Sort` | internal/opentelemetry-collector/consumer/pdata/common.go:700-706 | the same pointers, permuted into the stably sorted order of their keys, nil pointers last |
| `AttributeSlots.GetIsLookup` | internal/opentelemetry-collector/consumer/pdata/common.go:517-524 | Get on the slice is lookup in the finite map it stands for |
| `AttributeSlots.RunRefinesMap` | internal/opentelemetry-collector/consumer/pdata/common.go:517-706 | any sequence of Insert, Update, Upsert, Delete and Sort from unique keys keeps them unique and acts as the same sequence on a finite map |
| `AttributeSlots.ApplyRefines` | internal/opentelemetry-collector/consumer/pdata/common.go:528-706 | the same for one operation: Insert does not overwrite, Update does not create, Delete removes one key, Sort is invisible |
| `AttributeSlots.DeleteIsRemovalIff` | internal/opentelemetry-collector/consumer/pdata/common.go:528-537 | for every slice, duplicates included: swap-with-last deletion removes exactly the key if and only if the key has no second entry and the moved entry does not overtake a different one with its key |
| `AttributeSlots.DeleteUncovers` | internal/opentelemetry-collector/consumer/pdata/common.go:528-537 | an input that fails: deleting a key with two entries leaves the second one |
| `AttributeSlots.DeleteOvertakes` | internal/opentelemetry-collector/consumer/pdata/common.go:528-537 | an input that fails: deleting one key changes what another, doubled key reads as |
| `AttributeSlots.UniqueDeletesCleanly` | internal/opentelemetry-collector/consumer/pdata/common.go:528-537 | unique keys meet that condition and stay unique |
| `AttributeSlots.SortKeepsMap` | internal/opentelemetry-collector/consumer/pdata/common.go:700-706 | sorting is invisible to Get even with duplicate keys |
| `AttributeSlots.SortCompares` | internal/opentelemetry-collector/consumer/pdata/common.go:697-706 | two slices with unique keys and as many slots hold the same entries exactly when their sorted forms are equal |
| `AttributeSlots.BeforeDecides` | internal/opentelemetry-collector/consumer/pdata/common.go:701-704 | the comparison, though not a strict order on nil pointers, decides ascending keys with nil pointers last |
| `AttributeSlots.ZipIsMap` | internal/opentelemetry-collector/consumer/pdata/common.go:458-476 | filling the slice from a Go map gives that map, whatever the order of the walk |
| `Retry.Send` | internal/opentelemetry-collector/exporter/exporterhelper/queued_retry.go:150-203 | the retry loop with its early exits computes Run, and with retry disabled passes the one answer on |
| `Retry.EndsAtFirst` | internal/opentelemetry-collector/exporter/exporterhelper/queued_retry.go:166-203 | the loop tries again exactly until the first attempt that succeeds, fails permanently, is given up or is woken otherwise than by its timer, and returns the count and error that ending calls for: the sender's count, or what is still unsent, for traces what the last partial error named |
| `Retry.GoesOn` | internal/opentelemetry-collector/exporter/exporterhelper/queued_retry.go:166-203 | while no attempt ends it, every attempt is made and what is still unsent is what goes on |
| `Retry.RunAccounts` | internal/opentelemetry-collector/exporter/exporterhelper/queued_retry.go:150-203 | on every exit and at every point of an unfinished run, whatever a partial error of a metrics or logs request carries: delivered plus dropped (or pending) is the request's size plus what partial errors delivered in vain |
| `Retry.TracesAreConserved` | internal/opentelemetry-collector/exporter/exporterhelper/tracehelper.go:45-55 | spans delivered plus the dropped count returned is the number of spans of the original request |
| `Retry.TracesAreNotDuplicated` | internal/opentelemetry-collector/exporter/exporterhelper/tracehelper.go:45-47 | no span is delivered twice, and what is still pending was never delivered |
| `Retry.OthersAreConservedIff` | internal/opentelemetry-collector/exporter/exporterhelper/metricshelper.go:56-59 | requests that do not shrink are conserved if and only if no partial error met in the run delivered anything |
| `Retry.PartialCountsTwice` | internal/opentelemetry-collector/exporter/exporterhelper/metricshelper.go:56-59 | a run that fails, whatever traces the partial error carries: of two points one is delivered and two are reported dropped |
| `Retry.RetryIsBounded` | internal/opentelemetry-collector/exporter/exporterhelper/queued_retry.go:157-203 | with an elapsed-time limit and a positive least delay the loop returns after at most limit / least + 2 attempts, whatever is answered |
| `Retry.WaitsAreServed` | internal/opentelemetry-collector/exporter/exporterhelper/queued_retry.go:183-211 | between two attempts lie the whole backoff delay and any throttle delay |
| `Retry.WaitIsLarger` | internal/opentelemetry-collector/exporter/exporterhelper/queued_retry.go:190-211 | the wait is the larger of backoff and throttle delay, and no longer |
| `Retry.OneAttemptAfterStop` | internal/opentelemetry-collector/exporter/exporterhelper/queued_retry.go:194-201 | after the stop channel is closed at most one more attempt begins; a request first tried then is tried exactly once |
| `QueueShutdown.RunInv` | internal/opentelemetry-collector/exporter/exporterhelper/queued_retry.go:100-128 | what every step of producers, consumers and shutdown keeps: requests are in one place, queue once and untried, get at most one attempt after the stop, and consumers leave only an empty stopped queue |
| `QueueShutdown.NoRequestIsLost` | internal/opentelemetry-collector/exporter/exporterhelper/queued_retry.go:100-128 | in every run each accepted request is queued, in one consumer's hand, or done with, and in one of these only |
| `QueueShutdown.FirstInFirstOut` | internal/opentelemetry-collector/exporter/exporterhelper/queued_retry.go:100-118 | requests are taken in the order they were accepted |
| `QueueShutdown.AttemptsAreCounted` | internal/opentelemetry-collector/exporter/exporterhelper/queued_retry.go:100-105 | the attempts counted for a request, before and after the stop, are those made |
| `QueueShutdown.QueueIsBounded` | internal/opentelemetry-collector/exporter/exporterhelper/queued_retry.go:113-115 | the queue never holds more than its size |
| `QueueShutdown.TriedAgain` | internal/opentelemetry-collector/exporter/exporterhelper/queued_retry.go:183-201 | a run: a request that backs off is tried again |
| `QueueShutdown.OrderlyRun` | internal/opentelemetry-collector/exporter/exporterhelper/common.go:205-214 | in every interleaving: when the wrapped exporter's shutdown runs every accepted request was tried and all consumers have gone; it runs once, however often Shutdown is called |
| `QueueShutdown.ShutdownIsInOrder` | internal/opentelemetry-collector/exporter/exporterhelper/common.go:205-214 | in every run the steps of Shutdown are a beginning of: close the stop channel, stop the queue, wait for it, shut the exporter down |
| `QueueShutdown.OrderlyIffConsumed` | internal/opentelemetry-collector/exporter/exporterhelper/common.go:188-214 | that order holds in all runs if and only if at least one consumer was started |
| `QueueShutdown.LostRequest` | internal/opentelemetry-collector/exporter/exporterhelper/queued_retry.go:121-128 | the run without consumers in which an accepted request is shut down over |
| `QueueShutdown.TriedOnceAfterStop` | internal/opentelemetry-collector/exporter/exporterhelper/queued_retry.go:121-128 | no request is tried more than once after the stop channel is closed, and one untried by then exactly once before the queue is drained |
| `QueueShutdown.ShutdownCompletes` | internal/opentelemetry-collector/exporter/exporterhelper/queued_retry.go:121-128 | from the moment the queue is told to stop every way on has at most 3 * queued + 4 * consumers + 2 steps, and one that cannot go on has shut the wrapped exporter down, once |
| `TokenPool.RunInv` | internal/opentelemetry-collector/exporter/opencensusexporter/opencensus.go:150-198 | what every step of any number of pushes and one shutdown keeps: no token is lost or made up, a stream belongs to one token, every live stream is attached to a token or was drained |
| `TokenPool.PoolIsSafe` | internal/opentelemetry-collector/exporter/opencensusexporter/opencensus.go:90-198 | channel + held + drained = NumWorkers; a put never blocks and never meets a closed channel; the channel is closed only when no push holds a token; no stream is used by two pushes |
| `TokenPool.StreamsAreBounded` | internal/opentelemetry-collector/exporter/opencensusexporter/opencensus.go:158-170 | never more live streams than workers |
| `TokenPool.StreamsSurvive` | internal/opentelemetry-collector/exporter/opencensusexporter/opencensus.go:158-197 | in every run the live streams are those opened on which no send failed; at most as many are opened as there are workers and failed sends, so the others are reused |
| `TokenPool.IdleStreamsAreBack` | internal/opentelemetry-collector/exporter/opencensusexporter/opencensus.go:196-197 | when no push is under way, before shutdown, every live stream waits in the channel |
| `TokenPool.FirstInFirstOut` | internal/opentelemetry-collector/exporter/opencensusexporter/opencensus.go:150-198 | tokens are handed out in the order they were put in |
| `TokenPool.StreamIsReused` | internal/opentelemetry-collector/exporter/opencensusexporter/opencensus.go:158-197 | a run: the second push goes on with the stream the first one opened |
| `TokenPool.OutcomeOfPush` | internal/opentelemetry-collector/exporter/opencensusexporter/opencensus.go:150-198 | a push succeeds exactly if all was sent and fails exactly if it was refused, got no stream or failed to send |
| `TokenPool.PushIsShort` | internal/opentelemetry-collector/exporter/opencensusexporter/opencensus.go:150-198 | a push is over after at most four steps |
| `TokenPool.PoolNeverSticks` | internal/opentelemetry-collector/exporter/opencensusexporter/opencensus.go:90-108 | a push with a token can go on; shutdown waits only for pushes that hold one; after the close every push is refused |
| `LabelSets.SanitizeCleans` | internal/opentelemetry-collector/exporter/prometheusremotewriteexporter/helper.go:215-241 | sanitizing yields a clean, dash-free name, is idempotent, and leaves exactly the clean names alone |
| `LabelSets.SanitizeAt` | internal/opentelemetry-collector/exporter/prometheusremotewriteexporter/helper.go:215-241 | by position: letters and digits are kept and everything else becomes an underscore; in front comes key_ before a digit, key before an underscore and else nothing |
| `LabelSets.ReservedNamesAreKept` | internal/opentelemetry-collector/exporter/prometheusremotewriteexporter/helper.go:127-141 | an extra name is kept as it is exactly when there is something between two leading and two trailing underscores; all other names are sanitized |
| `LabelSets.LastWriterWins` | internal/opentelemetry-collector/exporter/prometheusremotewriteexporter/helper.go:115-144 | of labels and then extras the last writer of a raw key wins; reserved names are kept, an unpaired extra is ignored |
| `LabelSets.CreateLabelSet` | internal/opentelemetry-collector/exporter/prometheusremotewriteexporter/helper.go:115-153 | for any order of the map's walk the result lists each label of that content once |
| `LabelSets.SortedLabelsAreCanonical` | internal/opentelemetry-collector/exporter/prometheusremotewriteexporter/helper.go:96-153 | if no two raw keys sanitize to one name, the sorted list is the same for every walk and its names strictly ascend |
| `LabelSets.WalkIndependentIff` | internal/opentelemetry-collector/exporter/prometheusremotewriteexporter/helper.go:96-153 | for every content: the stored list is the same for all walks of the map if and only if equally named labels are equal |
| `LabelSets.KeysClash` | internal/opentelemetry-collector/exporter/prometheusremotewriteexporter/helper.go:120-125 | an input that fails, for a point of any metric: two raw keys that sanitize to one name, stored in an order that depends on the walk |
| `PromLabels.TimeSeriesSignature` | internal/opentelemetry-collector/exporter/prometheusremotewriteexporter/helper.go:96-110 | the labels come back sorted by name, a permutation of the input, and the signature is built from that order |
| `PromLabels.SignatureText` | internal/opentelemetry-collector/exporter/prometheusremotewriteexporter/helper.go:92-110 | the text of a signature for each metric type |
| `Strings.LessIff` | internal/opentelemetry-collector/exporter/prometheusremotewriteexporter/helper.go:48-48 | names are compared at their first difference, a name that ends there being the smaller |
| `PromLabels.SortIsCanonicalIff` | internal/opentelemetry-collector/exporter/prometheusremotewriteexporter/helper.go:96-100 | sorting by name, by whatever algorithm, has one possible result if and only if equally named labels are equal |
| `PromLabels.DistinctSortIsStrict` | internal/opentelemetry-collector/exporter/prometheusremotewriteexporter/helper.go:96-100 | distinct names strictly ascend after sorting |
| `PromLabels.SignatureIsInjective` | internal/opentelemetry-collector/exporter/prometheusremotewriteexporter/helper.go:102-109 | for dash-free names and values signatures are equal exactly when type and label list are |
| `PromLabels.SignatureIdentifies` | internal/opentelemetry-collector/exporter/prometheusremotewriteexporter/helper.go:92-110 | for distinct, dash-free names signatures are equal exactly when type and label set are, whatever order the labels came in |
| `PromLabels.SignatureNeedsDashFree` | internal/opentelemetry-collector/exporter/prometheusremotewriteexporter/helper.go:102-107 | over any value alphabet with a character besides the dash, signatures identify label sets if and only if the alphabet has no dash |
| `PromLabels.DashesCollide` | internal/opentelemetry-collector/exporter/prometheusremotewriteexporter/helper.go:102-107 | an input that fails: two label sets with one metric name and distinct names whose signatures are equal for every type |
| `SeriesIndex.Index.AddSample` | internal/opentelemetry-collector/exporter/prometheusremotewriteexporter/helper.go:71-90 | a nil sample or label slice changes nothing; otherwise earlier samples stay as they were and the index is the old one with this sample added under its signature |
| `SeriesIndex.IndexIsGrouping` | internal/opentelemetry-collector/exporter/prometheusremotewriteexporter/helper.go:71-90 | after any run with clean labels each type and label set has its own series, holding exactly its samples in emission order, and one never emitted has none |
| `SeriesIndex.IndexHoldsOnlyEvents` | internal/opentelemetry-collector/exporter/prometheusremotewriteexporter/helper.go:71-90 | nothing else is in the index |
| `SeriesIndex.SeriesUnderSignature` | internal/opentelemetry-collector/exporter/prometheusremotewriteexporter/helper.go:71-90 | on any run, collisions or not: one series for each signature, with all samples of that signature in order under the labels of the first |
| `SeriesIndex.IndexIsGroupingIff` | internal/opentelemetry-collector/exporter/prometheusremotewriteexporter/helper.go:71-110 | for every run: each sample's series is exactly its type and label set's group if and only if among the samples added signatures are equal exactly when type and label set are, with equally sorted labels |
| `SeriesIndex.DashesMerge` | internal/opentelemetry-collector/exporter/prometheusremotewriteexporter/helper.go:71-110 | a run that fails: the two label sets of DashesCollide end in one series, under the first one's labels |
| `SeriesIndex.WrapTimeSeries` | internal/opentelemetry-collector/exporter/prometheusremotewriteexporter/helper.go:193-206 | an error exactly for an empty index, otherwise each series once, in any order |
| `SeriesIndex.EverySampleOnce` | internal/opentelemetry-collector/exporter/prometheusremotewriteexporter/helper.go:193-206 | for every run of addSample and every walk the request holds each sample as often as it was added |
| `SeriesIndex.SeriesKeepsTimeOrder` | internal/opentelemetry-collector/exporter/prometheusremotewriteexporter/helper.go:71-90 | on any run: if the samples of a signature arrive in time order, whatever arrives between them, the series under it is in time order |
| `SeriesIndex.PlannedKeepTimeOrder` | internal/opentelemetry-collector/exporter/prometheusremotewriteexporter/helper.go:71-90 | the same when the points behind the samples come in nondecreasing nanoseconds |
| `SeriesIndex.RequestIsGrouped` | internal/opentelemetry-collector/exporter/prometheusremotewriteexporter/helper.go:71-206 | however the maps are walked, each planned sample travels in the series of its type and label set, with just the samples planned for it, under strictly ascending names |
| `SeriesIndex.ConvertTimeStamp` | internal/opentelemetry-collector/exporter/prometheusremotewriteexporter/helper.go:209-211 | milliseconds fit a signed 64-bit integer for every unsigned nanosecond time |
| `SeriesIndex.ConvertIsMonotone` | internal/opentelemetry-collector/exporter/prometheusremotewriteexporter/helper.go:209-211 | later nanoseconds never become earlier milliseconds |
| `RemoteWrite.MetricPlanSize` | internal/opentelemetry-collector/exporter/prometheusremotewriteexporter/exporter.go:154-311 | one sample per non-nil scalar point, 3 + buckets per non-nil histogram point, 2 + percentiles per summary point |
| `RemoteWrite.RefusedHasNoPlan` | internal/opentelemetry-collector/exporter/prometheusremotewriteexporter/helper.go:52-67 | a metric is rejected exactly when it has no descriptor or type, is a counter, histogram or summary that is not cumulative, or lacks the points its type calls for; otherwise the points of its type are translated |
| `RemoteWrite.NamespacePrefixes` | internal/opentelemetry-collector/exporter/prometheusremotewriteexporter/helper.go:157-189 | a namespace is put in front of the name with an underscore |
| `RemoteWrite.CountersAreTotals` | internal/opentelemetry-collector/exporter/prometheusremotewriteexporter/helper.go:157-189 | counters with a name get the suffix _total, others none, and the name is sanitized |
| `RemoteWrite.TotalIsSum` | internal/opentelemetry-collector/exporter/prometheusremotewriteexporter/exporter.go:240-258 | the running 64-bit total is the sum of the buckets modulo 2^64, so the sum itself while that fits |
| `RemoteWrite.PlannedLabels` | internal/opentelemetry-collector/exporter/prometheusremotewriteexporter/helper.go:115-144 | a reserved label of a sample cannot be displaced by a point's own labels, and every other label of the point is there |
| `RemoteWrite.IntMeaning` | internal/opentelemetry-collector/exporter/prometheusremotewriteexporter/exporter.go:164-178 | the sample of each non-nil integer point, after those of the non-nil points before it: its value and time in milliseconds under the metric's name, with exactly the point's labels besides |
| `RemoteWrite.DoubleMeaning` | internal/opentelemetry-collector/exporter/prometheusremotewriteexporter/exporter.go:186-199 | the same for double points |
| `RemoteWrite.SumAndCountMeaning` | internal/opentelemetry-collector/exporter/prometheusremotewriteexporter/exporter.go:214-238 | the first two samples of a point are its sum and count under the suffixed names at the point's time in milliseconds, with exactly the point's labels besides |
| `RemoteWrite.BucketMeaning` | internal/opentelemetry-collector/exporter/prometheusremotewriteexporter/exporter.go:244-251 | bucket i is stored with its own, not cumulative, count under its bound, with exactly the point's labels besides |
| `RemoteWrite.InfMeaning` | internal/opentelemetry-collector/exporter/prometheusremotewriteexporter/exporter.go:240-261 | the last sample of a histogram point holds under +Inf the sum of all buckets modulo 2^64, with exactly the point's labels besides |
| `RemoteWrite.QuantileMeaning` | internal/opentelemetry-collector/exporter/prometheusremotewriteexporter/exporter.go:299-308 | percentile i is stored with its value under the plain name, with exactly the point's labels besides |
| `RemoteWrite.PlanCarries` | internal/opentelemetry-collector/exporter/prometheusremotewriteexporter/helper.go:115-144 | besides its reserved labels a sample carries exactly its point's labels, each with the last value given |
| `RemoteWrite.HistogramPlanAt` | internal/opentelemetry-collector/exporter/prometheusremotewriteexporter/exporter.go:214-262 | the samples of each non-nil histogram point are found together, after those of the points before it |
| `RemoteWrite.SummaryPlanAt` | internal/opentelemetry-collector/exporter/prometheusremotewriteexporter/exporter.go:275-309 | the samples of each summary point are found together, after those of the points before it |
| `RemoteWrite.ReadLabels` | internal/opentelemetry-collector/exporter/prometheusremotewriteexporter/helper.go:120-125 | reading a point's labels gives them all in order, and panics exactly on a nil one |
| `RemoteWrite.Emit` | internal/opentelemetry-collector/exporter/prometheusremotewriteexporter/exporter.go:169-177 | createLabelSet followed by addSample adds the sample planned, and panics exactly on a nil label |
| `RemoteWrite.AddInts` | internal/opentelemetry-collector/exporter/prometheusremotewriteexporter/exporter.go:160-179 | the integer loop adds the plan of its non-nil points, in order, and panics exactly when one of them has a nil label |
| `RemoteWrite.AddDoubles` | internal/opentelemetry-collector/exporter/prometheusremotewriteexporter/exporter.go:182-200 | the double loop adds the plan of its non-nil points, in order, and panics exactly when one of them has a nil label |
| `RemoteWrite.AddHistogramPoint` | internal/opentelemetry-collector/exporter/prometheusremotewriteexporter/exporter.go:214-262 | one histogram point adds sum, count, buckets and +Inf, in order; it panics exactly on a nil label, a nil bucket or a bucket without a bound |
| `RemoteWrite.AddBuckets` | internal/opentelemetry-collector/exporter/prometheusremotewriteexporter/exporter.go:240-254 | the bucket loop adds one sample a bucket and returns the running total; it panics exactly on a nil bucket or a bucket without a bound |
| `RemoteWrite.AddSummaryPoint` | internal/opentelemetry-collector/exporter/prometheusremotewriteexporter/exporter.go:275-309 | one summary point adds sum, count and percentiles, in order; it panics exactly on a nil label or percentile |
| `RemoteWrite.AddSummaries` | internal/opentelemetry-collector/exporter/prometheusremotewriteexporter/exporter.go:275-310 | the summary loop adds the plan of its points, in order; unlike the others it panics on a nil point |
| `RemoteWrite.HandleMetric` | internal/opentelemetry-collector/exporter/prometheusremotewriteexporter/exporter.go:106-133 | a panic exactly when the metric is translated and meets a nil label, bucket, percentile or summary point or a bucket without a bound; otherwise an error exactly when the metric is refused, and a refused metric adds no sample |
| `RemoteWrite.RejectedCounts` | internal/opentelemetry-collector/exporter/prometheusremotewriteexporter/exporter.go:106-133 | at most every metric is rejected, and none exactly when every non-nil metric has a translation |
| `RemoteWrite.RejectedAreRefused` | internal/opentelemetry-collector/exporter/prometheusremotewriteexporter/exporter.go:106-133 | the number of errors is the number of refused metrics |
| `RemoteWrite.BatchPlanAt` | internal/opentelemetry-collector/exporter/prometheusremotewriteexporter/exporter.go:92-137 | the samples of each metric are found together, after those of the metrics before it |
| `RemoteWrite.MetricsInOrder` | internal/opentelemetry-collector/exporter/prometheusremotewriteexporter/exporter.go:92-105 | resources are visited in order |
| `RemoteWrite.LibrariesInOrder` | internal/opentelemetry-collector/exporter/prometheusremotewriteexporter/exporter.go:92-105 | libraries are visited in order |
| `RemoteWrite.OneOfEach` | internal/opentelemetry-collector/exporter/prometheusremotewriteexporter/exporter.go:92-105 | a nil resource or library is skipped, any other contributes all its metrics |
| `RemoteWrite.FillIndex` | internal/opentelemetry-collector/exporter/prometheusremotewriteexporter/exporter.go:92-137 | the nested loops add the plan of all metrics in order and collect one error for each rejected metric, unless one of them panics |
| `RemoteWrite.PushMetrics` | internal/opentelemetry-collector/exporter/prometheusremotewriteexporter/exporter.go:80-149 | for every batch: a closed exporter refuses it; an open one panics, sending nothing, exactly when a metric it translates meets a nil label, bucket, percentile or summary point or a bucket without a bound; otherwise it sends exactly the translated samples, unless there are none or the transport fails, and then counts the whole batch as dropped; no error exactly when nothing is dropped |
| `RemoteWrite.MissingBound` | internal/opentelemetry-collector/exporter/prometheusremotewriteexporter/exporter.go:244-249 | an input that fails: a cumulative histogram with one bucket and no bound |
| `RemoteWrite.DroppedAccounting` | internal/opentelemetry-collector/exporter/prometheusremotewriteexporter/exporter.go:139-147 | dropped are the refused metrics if something was sent, and else the whole batch; nothing dropped of a non-empty batch means every non-nil metric was translated and sent; what is sent holds each sample once |
| `RemoteWrite.BatchIsGrouped` | internal/opentelemetry-collector/exporter/prometheusremotewriteexporter/exporter.go:80-149 | for a batch with clean labels each sample is in the request under its own type and labels, with just the batch's samples of that label set, in the batch's order |
| `RemoteWrite.BatchKeepsTimeOrder` | internal/opentelemetry-collector/exporter/prometheusremotewriteexporter/exporter.go:80-149 | if the points that end up in one series come in nondecreasing nanoseconds, every series of the request is in time order |
| `RemoteWriteShutdown.RunInv` | internal/opentelemetry-collector/exporter/prometheusremotewriteexporter/exporter.go:71-86 | in every run the wait group counts the pushes inside |
| `RemoteWriteShutdown.OutcomeOfPush` | internal/opentelemetry-collector/exporter/prometheusremotewriteexporter/exporter.go:80-86 | in every run a push is accepted exactly by passing the check, refused exactly by failing it, and has returned exactly if it signed off |
| `RemoteWriteShutdown.CheckFollowsChannel` | internal/opentelemetry-collector/exporter/prometheusremotewriteexporter/exporter.go:83-86 | a check is passed before the channel is closed and failed after |
| `RemoteWriteShutdown.PushGoesOn` | internal/opentelemetry-collector/exporter/prometheusremotewriteexporter/exporter.go:80-86 | a push inside can always go on: to work while the channel is open, back while it is closed, and out |
| `RemoteWriteShutdown.PushIsShort` | internal/opentelemetry-collector/exporter/prometheusremotewriteexporter/exporter.go:80-86 | a push is in and out in at most four steps |
| `RemoteWriteShutdown.ShutdownIsSafe` | internal/opentelemetry-collector/exporter/prometheusremotewriteexporter/exporter.go:71-86 | once Shutdown has returned no push is at work and every push that passed the check has returned |
| `RemoteWriteShutdown.ShutdownIsFinal` | internal/opentelemetry-collector/exporter/prometheusremotewriteexporter/exporter.go:80-86 | however the run goes on after that, no push is accepted |
| `RemoteWriteShutdown.ShutdownNeverSticks` | internal/opentelemetry-collector/exporter/prometheusremotewriteexporter/exporter.go:71-75 | while Shutdown waits some push inside can take a step, or Shutdown can return |
| `ProcessManager.RunBalances` | internal/opentelemetry-collector/extension/fluentbitextension/process.go:101-181 | every started child is running, has exited or was heard of; exit messages owed + received = successful starts; owed is the current child's one plus one per failed configuration write; the current child has not been heard of; the loop ends only after cancellation |
| `ProcessManager.RunKeepsLedger` | internal/opentelemetry-collector/extension/fluentbitextension/process.go:113-175 | in every run each failure is logged once, each log followed by one restart, each restart by one attempt to start, each start by one write; exactly an exit received after cancellation ends the loop |
| `ProcessManager.RestartsFollowFailures` | internal/opentelemetry-collector/extension/fluentbitextension/process.go:113-175 | from the beginning: at most one attempt to start more than there were failures, and the loop has returned exactly if such an exit was received |
| `ProcessManager.OneChildIffNoConfig` | internal/opentelemetry-collector/extension/fluentbitextension/process.go:135-143 | two children are never alive at once in any run if and only if there is no configuration to write |
| `ProcessManager.OwnExitIffNoConfig` | internal/opentelemetry-collector/extension/fluentbitextension/process.go:145-162 | every exit message the loop receives is the current child's, in all runs, if and only if there is no configuration to write |
| `ProcessManager.NoneOutlivesIffNoConfig` | internal/opentelemetry-collector/extension/fluentbitextension/process.go:158-173 | the loop returns only when no child is running, in all runs, if and only if there is no configuration to write |
| `ProcessManager.NoFailedWriteOneChild` | internal/opentelemetry-collector/extension/fluentbitextension/process.go:135-143 | every run in which no write has failed has all three properties, whatever the configuration, and without one no write fails |
| `ProcessManager.SecondChild` | internal/opentelemetry-collector/extension/fluentbitextension/process.go:135-143 | a run that fails: a failing write leaves two children alive |
| `ProcessManager.ForeignExit` | internal/opentelemetry-collector/extension/fluentbitextension/process.go:158-162 | a run that fails: while the second child is being ended, the exit of the first is there to be received |
| `ProcessManager.LeftBehind` | internal/opentelemetry-collector/extension/fluentbitextension/process.go:172-181 | when the loop has returned, the context was cancelled and as many children are unaccounted for as configuration writes failed |
| `ProcessManager.NeverHangs` | internal/opentelemetry-collector/extension/fluentbitextension/process.go:113-175 | the loop itself can take a step, or has returned, or waits for its own current child, which is running and is either healthy and wanted or told to end |
| `ConfigLoading.DecodeNormalizes` | internal/opentelemetry-collector/config/config.go:173-206 | decoding a decoded full name gives the same type and full name |
| `ConfigLoading.DecodesTypeAndName` | internal/opentelemetry-collector/config/config.go:173-206 | a type and a name with any space around both decode to the type and the two joined by a slash |
| `ConfigLoading.DecodesType` | internal/opentelemetry-collector/config/config.go:173-206 | a type alone, with any space around it, decodes to itself as type and full name |
| `ConfigLoading.BadKeyIff` | internal/opentelemetry-collector/config/config.go:173-206 | a key is bad exactly when its type, or a name asked for by a slash, is blank |
| `ConfigLoading.TrimFacts` | internal/opentelemetry-collector/config/config.go:181-198 | trimming leaves no space at the ends, adds nothing and leaves exactly the trimmed strings alone |
| `ConfigLoading.TrimPadded` | internal/opentelemetry-collector/config/config.go:181-198 | trimming takes away exactly the space around a string |
| `ConfigLoading.Load` | internal/opentelemetry-collector/config/config.go:236-290 | the loop over the keys stops at the first failing one and otherwise collects all results |
| `ConfigLoading.LoadsComponent` | internal/opentelemetry-collector/config/config.go:236-290 | which error or which component, under which name, a key with type and name loads to |
| `ConfigLoading.LoadsDefault` | internal/opentelemetry-collector/config/config.go:236-290 | the same for a key with a type only |
| `ConfigLoading.InvalidKeyIff` | internal/opentelemetry-collector/config/config.go:251-256 | a key is reported invalid exactly when its type or asked-for name is blank |
| `ConfigLoading.LoadIsOrderIndependent` | internal/opentelemetry-collector/config/config.go:339-387 | a section loads for one order of the walk exactly when it loads for every other, with the same result, and exactly when each key loads by itself and no two get one name |
| `ConfigLoading.CollectsIffLoadable` | internal/opentelemetry-collector/config/config.go:389-443 | the result holds exactly what the keys load to |
| `ConfigLoading.FirstErrorIsReported` | internal/opentelemetry-collector/config/config.go:445-499 | the error reported is that of the first key that fails in the order walked: its own, or a duplicate name, and then an earlier key has that name |
| `ConfigLoading.SomeKeyFails` | internal/opentelemetry-collector/config/config.go:445-499 | every failed load has such a first failing key |
| `FanOut.Consume` | internal/opentelemetry-collector/processor/cloningfanoutconnector.go:84-105 | each consumer is called once, in order, on objects of its own, and reads the caller's value although every object handed out before is overwritten at will and consumers answer as they like; no error exactly when every consumer succeeded, and the errors are combined in order |
| `FanOut.NoErrors` | internal/opentelemetry-collector/processor/cloningfanoutconnector.go:46-67 | the error list is empty exactly when every consumer succeeded |
| `FanOut.ErrorsInOrder` | internal/opentelemetry-collector/processor/cloningfanoutconnector.go:84-105 | errors are kept in the order of the consumers |
| `FanOut.OneAnswer` | internal/opentelemetry-collector/processor/cloningfanoutconnector.go:84-105 | one consumer contributes its error, or nothing |
| `ComponentErrors.CombineErrors` | internal/opentelemetry-collector/component/componenterror/errors.go:37-53 | no error exactly for the empty list, and a single error as it is |
| `ComponentErrors.CombinedText` | internal/opentelemetry-collector/component/componenterror/errors.go:47-52 | the text for several errors is theirs in order, separated by semicolons and in brackets |
| `SpanCounts.SpanCount` | internal/opentelemetry-collector/consumer/pdata/trace.go:62-80 | the sum of the spans of all non-nil libraries of all non-nil resources |
| `SpanCounts.SpansAddUp` | internal/opentelemetry-collector/consumer/pdata/trace.go:62-80 | counts add up over resources |
| `SpanCounts.LibrariesAddUp` | internal/opentelemetry-collector/consumer/pdata/trace.go:62-80 | counts add up over libraries |
| `SpanCounts.OneLibrary` | internal/opentelemetry-collector/consumer/pdata/trace.go:62-80 | a nil resource or library counts nothing, a library its spans |
| `SpanCounts.CountByAttribute` | internal/opentelemetry-collector/processor/metrics.go:185-209 | the nested loops tally every library's spans under its resource's service |
| `SpanCounts.ServiceIsFirstString` | internal/opentelemetry-collector/processor/metrics.go:195-198 | the service is the string of the first entry with the key, and empty if there is none or it is no string |
| `SpanCounts.CountsAreByService` | internal/opentelemetry-collector/processor/metrics.go:185-209 | each service is counted with exactly its own spans |
| `SpanCounts.CountsPartition` | internal/opentelemetry-collector/processor/metrics.go:185-209 | the counts by service add up to SpanCount, however the map is walked |
| `SpanCounts.Record` | internal/opentelemetry-collector/processor/metrics.go:166-176 | detailed or not the recorded measurements add up to SpanCount; detailed, there is one for each service with just its spans |

## Left out

What the project does not model:

- Slices are sequences: capacity, backing arrays shared by two slices, and the
  batch allocation of `origs` and `wrappers` are not modelled; each cell is an
  object of its own.
- In-place copies are modelled for destinations whose cells are distinct objects
  and which are disjoint from the source or, for attribute values, the source itself;
  copying an array over one it is part of, and an attribute map onto itself, are not.
- Go's `sort.Sort` and `sort.SliceStable` are modelled by a stable insertion sort;
  `PromLabels.SortIsCanonicalIff` says when any other sort gives the same result.
- Floating point numbers are reals: no rounding, not-a-number or infinities, and
  the conversion of a 64-bit count to a float is exact. The number printer, the
  unicode tables and the space table are parameters.
- Metric type numbers outside the enumeration (the "unsupported metric type" branch).
- Texts of error messages, except how `CombineErrors` joins them.
- The bounded queue, the exponential backoff, `sync.Once`, channels and wait groups
  are taken at their contracts; a second Shutdown of the remote-write exporter,
  which closes a closed channel, is not a step of the model.
- The number of consumers a failed, missing or repeated Start leaves running is a
  parameter of the queue model rather than computed from Start.
- Sends that bypass the queue, the timeout sender, the observability senders and
  request contexts other than their end.
- Which gRPC or HTTP failure becomes which class of error: the retry loop is
  modelled on the outermost error it sees.
- Transport: HTTP, snappy, protobuf, gRPC and the translation to OpenCensus data.
- Time in the process manager (restart delay, shutdown timeout) and its output pipe.
- Unmarshalling is a deterministic function of key and default; viper, environment
  expansion, the service section and all `validate*` functions, and the pipelines
  section, whose loop has the same shape, are not modelled.
- Easy members: the scalar `Insert*` variants, `StringMap`, `Resize`, `Append`,
  `MoveAndAppendTo`, `Len`, `ForEach`, capacity hints, and the other generated
  slices, which repeat the array pattern.
- `AttributeValue.Equal`, whose map and array cases the original does not implement.
- `exporter/cortexexporter`, `cmd/otelcol`, receivers, other processors and
  exporters, and service start-up.

Contracts that say less than the original does:

- RemoteWrite.HandleMetric: states when there is an error and what is added, not which message is returned.
- Retry.OneAttemptAfterStop: needs a positive least delay; with a zero delay the original may pick the timer over the closed channel again and again.
- QueueShutdown.TriedOnceAfterStop: rests on positive delays in the same way.
- FanOut.Consume: works on a tree of attribute values, with the deep copy of those as its clone; the clones of whole traces, metrics and logs are protobuf copies.
