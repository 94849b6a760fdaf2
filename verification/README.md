# TopSQL playground: series store and plot preparation, in Dafny

The system collects CPU time per SQL statement from TiDB and TiKV instances and
shows it in a browser. This project models its core in Dafny 4.11:

- **The server's series store** (`model/model.go`). There is one `TimeSeries`
  per (instance, SQL digest, plan digest), kept under the key `makeKey` builds.
  `ingest` appends a batch of samples and rejects malformed batches.
  `GetInstances` lists the instances, sorted and without repeats.
  `GetDataInInstance` returns one instance's series.
- **The UI's normalisation of fetched series** (`ui/src/utils/api.ts`).
  Series are sorted by SQL digest, then plan digest. Each series' samples are
  sorted by timestamp. A run of equal timestamps keeps only its first sample,
  with the timestamp scaled from seconds to milliseconds.
- **Plot preparation** (`ui/src/utils/seriesCalc.ts`). `mergeTwoTimestamps` is
  a two-pointer merge that drops repeats. `mergeTimestamps` is a balanced
  divide-and-conquer over the series. `preparePlotData` re-aligns every series
  onto the merged timeline.
- **The chart data** (`ui/src/App.tsx`, the `chartData` memo). It sums the
  samples inside the brushed time range per SQL digest and per timestamp, then
  ranks the digests by descending total.

Modules, one per file:

- `Options`: an option type.
- `StableSort`: a stable insertion sort over any total preorder. Both JavaScript
  `Array.prototype.sort` and lodash `orderBy` are stable.
- `Lexicographic`: string order.
- `Samples`: samples, timestamps, and the "first sample at `t`" lookup.
- `TimestampMerge`: the timestamp merges.
- `SeriesAlign`: the re-alignment scan.
- `UiSeries`: UI series and their sort order.
- `SeriesNormalize`: the post-processing in `getSeriesData`.
- `PlotPrepare`: `preparePlotData`.
- `Sums`: map sums.
- `ChartData`: the `chartData` memo.
- `SeriesStore`: the Go store.

The loops are modelled as recursive functions. Three of them also have a
`method` that follows the loop step by step, with a contract saying it computes
the same result as the recursive function:
- `MergeTwoScan` follows the loop of `mergeTwoTimestamps`.
- `AlignScan` follows the re-alignment loop of `preparePlotData`.
- `AppendValues` follows the append loop of `ingest`.

The other loops are modelled only as recursive functions:
- the dedup pass of `getSeriesData` (`DedupFrom`);
- the two loops of `chartData` (`AddSamples`, `TallyAll`);
- the loops of `GetInstances` (`InstancesOf`) and `GetDataInInstance`;
- the timestamp extraction of `preparePlotData` (`TimestampsOf`).

## Model

| member | source | states |
|---|---|---|
| TimestampMerge.MergeTwoTimestamps | ui/src/utils/seriesCalc.ts:4-11 | An undefined argument returns the other argument unchanged. Two defined arrays give at most their combined length, with no value repeated next to itself. |
| TimestampMerge.MergeTwoScan | ui/src/utils/seriesCalc.ts:13-48 | The pointer loop of `mergeTwoTimestamps` computes the recursive merge `MergeSorted`. On two sorted inputs it returns their strictly increasing union. |
| TimestampMerge.MergeSorted | ui/src/utils/seriesCalc.ts:13-48 | On two defined arrays, sorted or not, the output fits in the `a.length + b.length` slots allocated at line 21, and no value directly follows itself. |
| TimestampMerge.MergeFrom | ui/src/utils/seriesCalc.ts:23-43 | From any point of the loop, the rest of the output fits in what is left unread, has no value directly after itself, and does not start with the value emitted last. |
| TimestampMerge.Next | ui/src/utils/seriesCalc.ts:24-37 | Each pass of the loop consumes exactly one unread value. |
| TimestampMerge.ReadNext | ui/src/utils/seriesCalc.ts:24-37 | The four branches that pick the next value read one value from the unread parts of the inputs. Ties are read from `b`. |
| TimestampMerge.MergeSortedUnion | ui/src/utils/seriesCalc.ts:13-48 | Merging two non-decreasing arrays gives a strictly increasing array. It holds exactly the values of both inputs. |
| TimestampMerge.MergeSortedElems | ui/src/utils/seriesCalc.ts:13-48 | Sorted or not, the output holds exactly the values of both inputs. |
| TimestampMerge.MergeFromElems | ui/src/utils/seriesCalc.ts:23-43 | Sorted or not, the rest of the output holds only unread values. It holds every unread value, except possibly one equal to the value emitted last. |
| TimestampMerge.MergeFromSorted | ui/src/utils/seriesCalc.ts:23-43 | From any point of the loop, the rest of the output is strictly increasing and lies above the last value emitted. It holds every unread value except that last one. |
| TimestampMerge.MergeCardinality | ui/src/utils/seriesCalc.ts:21-46 | For strictly increasing inputs, the output never needs more than the pre-allocated `a.length + b.length` slots, and it fills all of them exactly when the inputs share no value. Without that precondition the "exactly when" fails: `[1, 1]` and `[2]` share no value but merge to `[1, 2]`. |
| TimestampMerge.MergeAlgebra | ui/src/utils/seriesCalc.ts:4-48 | On strictly increasing arrays, the merge is idempotent, commutative and associative. |
| TimestampMerge.MergeTimestamps | ui/src/utils/seriesCalc.ts:50-66 | `l > r` gives undefined. A single index gives that series unchanged, and an out-of-range index gives undefined. Any non-empty in-range span gives a defined array. |
| TimestampMerge.MergeTimestampsIncreasing | ui/src/utils/seriesCalc.ts:50-66 | Over strictly increasing arrays, every non-empty in-range span `l..r` gives a defined, strictly increasing array. |
| TimestampMerge.MergeTimestampsElems | ui/src/utils/seriesCalc.ts:50-66 | Over any arrays, sorted or not, every non-empty in-range span `l..r` gives a defined array holding exactly the union of `xs[l..r]`. |
| TimestampMerge.MergeTimestampsUnion | ui/src/utils/seriesCalc.ts:50-66 | Over strictly increasing arrays, `mergeTimestamps(xs, l, r)` is strictly increasing. It holds exactly the union of `xs[l..r]`. |
| TimestampMerge.SplitIndependent | ui/src/utils/seriesCalc.ts:61-65 | Over strictly increasing arrays, splitting a range at any midpoint, not only the floor of `(l + r) / 2`, gives the same timeline. |
| TimestampMerge.UnionOfMembers | ui/src/utils/seriesCalc.ts:103-120 | A timestamp is in the union of the per-series arrays exactly when some series has it. |
| SeriesAlign.Align | ui/src/utils/seriesCalc.ts:134-151 | The re-alignment gives exactly one slot per remaining timeline position, even when the samples run out before the timeline does. |
| SeriesAlign.AlignScan | ui/src/utils/seriesCalc.ts:124-151 | The re-alignment loop, with its early exit once the series' samples are used up, returns one slot per merged timestamp. On sorted input, slot `j` is the first sample's CPU time at `timestamps[j]`, or nothing if there is none. |
| SeriesAlign.SkipBefore | ui/src/utils/seriesCalc.ts:137-142 | The inner loop stops at the first sample not before the current timestamp. Skipping the earlier samples does not change the rest of the alignment. |
| SeriesAlign.Place | ui/src/utils/seriesCalc.ts:143-146 | A sample at the current timestamp fills the slot and is consumed. Otherwise the slot stays empty and the sample stays unread. |
| SeriesAlign.AlignIsFirstAt | ui/src/utils/seriesCalc.ts:122-158 | On non-decreasing samples and a strictly increasing timeline, each slot is the independent "first sample at `t`" lookup for its timestamp. |
| PlotPrepare.PreparePlotData | ui/src/utils/seriesCalc.ts:79-164 | Empty input gives empty timestamps and series. Otherwise there is one plot series per input series, each with one slot per merged timestamp. |
| PlotPrepare.SortAll | ui/src/utils/seriesCalc.ts:87-101 | Steps 0 and 1 keep one series per input series. Every earlier series is in digest order before every later one, and each series' samples are in non-decreasing timestamp order. |
| PlotPrepare.Timeline | ui/src/utils/seriesCalc.ts:115-120 | The merged timeline holds exactly the timestamps of the sorted series, no more and no fewer. |
| PlotPrepare.TimelineSpec | ui/src/utils/seriesCalc.ts:103-120 | The merged timeline is strictly increasing. It holds exactly the timestamps that occur in some input series. |
| PlotPrepare.PreparePlotDataSpec | ui/src/utils/seriesCalc.ts:79-164 | Plot series `i` carries the digests of the `i`-th series in digest order. Its slot `j` is that series' CPU time at `timestamps[j]`, or nothing. |
| PlotPrepare.SortAllFacts | ui/src/utils/seriesCalc.ts:87-101 | After steps 0 and 1, each series is an input series whose samples are sorted. Its first sample at each timestamp is unchanged. |
| UiSeries.SortSeriesSpec | ui/src/utils/api.ts:33-40 | Sorting series is a permutation into (SQL digest, plan digest) order, with a missing plan digest read as "". Series with equal keys keep their order. |
| UiSeries.SortSeries | ui/src/utils/api.ts:33-40 | The result is a reordering of the input series, and every earlier series is in (SQL digest, plan digest) order before every later one. |
| Samples.SortKeepsSamplesAt | ui/src/utils/api.ts:42-47 | Sorting samples by timestamp keeps the samples at each timestamp in their original order. The first sample at each timestamp is therefore unchanged. |
| Samples.SortByTimestamp | ui/src/utils/api.ts:42-47 | The result is a reordering of the samples into non-decreasing timestamp order. |
| Samples.SortDistinctIsIncreasing | ui/src/utils/seriesCalc.ts:96-101 | Samples whose timestamps are distinct come out of the sort in strictly increasing timestamp order. |
| SeriesNormalize.DedupKeepsFirst | ui/src/utils/api.ts:49-64 | The first sample the input has at `t` seconds is exactly the first sample the output has at `t * 1000` ms. |
| SeriesNormalize.DedupIncreasing | ui/src/utils/api.ts:50-62 | Deduplicating sorted samples gives strictly increasing timestamps, all above the last one kept. |
| SeriesNormalize.DedupFrom | ui/src/utils/api.ts:50-62 | The pass never adds samples, and every timestamp it keeps is a whole number of seconds given in milliseconds. |
| SeriesNormalize.NormalizeValues | ui/src/utils/api.ts:42-64 | One series' samples come out in strictly increasing timestamp order, in whole milliseconds, and never more of them than went in. |
| SeriesNormalize.NormalizeValuesSpec | ui/src/utils/api.ts:42-64 | A series' samples come out strictly increasing in whole milliseconds, never more than went in. A timestamp is present in seconds exactly when it is present in milliseconds, with the same first CPU time. |
| SeriesNormalize.NormalizeSpec | ui/src/utils/api.ts:33-64 | Normalised series are in digest order. Each is a series of the input with its samples normalised. |
| SeriesNormalize.Normalize | ui/src/utils/api.ts:33-64 | There is one output series per input series, and each has strictly increasing timestamps. |
| Lexicographic.LeTotalOrder | ui/src/utils/api.ts:35-39 | The string order standing in for `localeCompare` is total, antisymmetric and transitive. |
| Lexicographic.Compare | ui/src/utils/api.ts:35-39 | The stand-in for `localeCompare` returns -1, 0 or 1, and 0 exactly when the strings are equal. |
| ChartData.ChartData | ui/src/App.tsx:63-118 | No series data gives nothing. Otherwise there is one bucket per distinct SQL digest. |
| ChartData.TallyDigests | ui/src/App.tsx:67-95 | After the accumulation loop, the digests are listed once each, in order of first appearance. A digest has a sum exactly when it is listed. |
| ChartData.AddSeries | ui/src/App.tsx:70-95 | One series raises its own digest's sum by its in-range CPU time. Every other digest keeps its sum and its per-timestamp entries. The earlier list is kept as a prefix and grows by at most one digest. When the list and the sums' keys agree, the series' own digest is appended exactly when it is not yet listed. |
| ChartData.Ranked | ui/src/App.tsx:97-102 | The ranking holds one bucket per tallied digest. It reorders the tally's buckets so that totals never increase along it. |
| ChartData.TallySpec | ui/src/App.tsx:67-95 | After the accumulation loop, the digests are listed in order of first appearance. Each digest's sum is the in-range CPU time of all its series. A timestamp has an entry exactly when some series of that digest has an in-range sample there. Each entry is the sum of those samples, and the entries add up to the digest's sum. |
| ChartData.AddSamplesCells | ui/src/App.tsx:76-88 | The inner loop adds each in-range sample to its own timestamp's entry. It creates an entry only for a timestamp that has an in-range sample. |
| ChartData.AddSamplesSum | ui/src/App.tsx:75-88 | The inner loop's `sum` is the CPU time of the series' samples inside the range, with both ends of the range included. |
| ChartData.ChartDigests | ui/src/App.tsx:97-115 | Every SQL digest of the input appears in the output exactly once, even one with no samples in the range. |
| ChartData.ChartBuckets | ui/src/App.tsx:63-118 | Each output bucket's total is the in-range CPU time of all series with its digest. It has an entry for a timestamp exactly when one of those series has an in-range sample there, the entry is the sum of those samples, and the entries add up to the total. |
| ChartData.ChartRanking | ui/src/App.tsx:97-102 | Totals never increase along the output. Digests with equal totals keep their order of first appearance. |
| SeriesStore.MakeKeyParts | model/model.go:28-30 | When the SQL and plan digests contain no separator, the key splits back into instance, SQL digest and plan digest. |
| SeriesStore.MakeKeyInjective | model/model.go:28-30 | Under that condition, different triples give different keys. |
| SeriesStore.MakeKey | model/model.go:28-30 | The key starts with the instance and a separator, and ends with a separator and the plan digest. Its length is the three lengths plus two. |
| SeriesStore.AppendValues | model/model.go:76-85 | The append loop adds the pairs `(timestamps[i], cpuValues[i])` in order after the old values. It returns the sum of the CPU values. |
| SeriesStore.Append | model/model.go:76-85 | The series keeps its instance, digests and old samples. It gains the reported pairs in input order after them, and its sum rises by their CPU values. |
| SeriesStore.Ingest | model/model.go:45-88 | A length mismatch or an empty SQL digest is rejected and the store is untouched. Otherwise exactly the key's series is created if missing and extended with the batch. Its sum rises by the batch's total, and every other key is unchanged. |
| SeriesStore.IngestValid | model/model.go:45-88 | Ingesting keeps every series under the key of its own triple. Each series' `valuesSum` stays equal to the total of its values. |
| SeriesStore.AppendWellFormed | model/model.go:62-85 | In a well-formed store and with digests free of the separator, the series `ingest` stores is well formed. It sits under its own triple's key, carries the reported instance and digests, and its sum equals the total of its values. |
| SeriesStore.CpuTotalZip | model/model.go:76-85 | The samples appended carry exactly the CPU time that is added to `valuesSum`. |
| SeriesStore.GetInstances | model/model.go:114-130 | The result holds exactly the instances of the stored series, in strictly ascending order, so without repeats. |
| SeriesStore.InstancesOf | model/model.go:115-120 | The first loop collects each instance of the visited keys once, and no other. |
| SeriesStore.GetInstancesIndependent | model/model.go:118-128 | The result does not depend on the order in which the Go map is iterated. |
| SeriesStore.AscendingUnique | model/model.go:123-129 | Two strictly ascending lists with the same elements are the same list. The sorted result is therefore fixed by the set of instances alone. |
| SeriesStore.GetDataMembers | model/model.go:133-146 | A series is returned exactly when it is stored and belongs to the instance. |
| SeriesStore.GetDataInInstance | model/model.go:133-146 | The result is no longer than the list of visited keys, and every series returned belongs to the requested instance. |
| SeriesStore.GetDataCount | model/model.go:137-142 | Over keys visited once each, a series of the instance is returned once for every key that holds it, and a series of another instance never. |
| SeriesStore.GetDataOnce | model/model.go:133-146 | In a well-formed store, for any iteration order, every stored series of the instance is returned exactly once. |
| SeriesStore.GetDataSize | model/model.go:137-142 | Over keys visited once each, the result has one series per visited key whose series belongs to the instance. |
| SeriesStore.GetDataExactSize | model/model.go:133-146 | For any iteration order, the result has exactly as many series as the store has keys holding a series of the instance. |
| SeriesStore.GetDataIndependent | model/model.go:137-142 | Two iteration orders of the map return the same series, possibly in a different order. |
| SeriesStore.GetDataPermutation | model/model.go:137-142 | Visiting the same keys in another order returns the same series, possibly in a different order. |
| StableSort.SortStable | ui/src/App.tsx:98-102 | The sort keeps the input order within every class of tied elements. |
| StableSort.SortSorted | ui/src/App.tsx:98-102 | The sort orders its output by the comparator. |
| StableSort.Sort | ui/src/utils/api.ts:34-40 | The sort returns a reordering of its input: the same elements, the same number of times each. |

## Left out

- The HTTP server, the gRPC receivers, `main.go` and the React rendering are
  not modelled. Nor are the fetches in `api.ts`: the model starts from the
  decoded response.
- `IngestTiDBData` and `IngestTiKVData` are left out. They hex-encode digests
  and decode protobuf, so the model starts at `ingest` with the digests already
  strings.
- `DigestRegistry` (`LinkPlan`, `LinkSQL`, `GetSQLMap`) is left out. It is a
  plain map write and read outside the series store.
- The store's mutex is left out. Each operation is one atomic step from a store
  to a store.
- `GetDataInInstance` returns series values, not pointers. Aliasing of the
  returned series with the store is not modelled.
- Go map iteration order is not modelled. It becomes a parameter `keys` that
  lists the store's keys once each. The lemmas show that the results do not
  depend on it, up to order for `GetDataInInstance`.
- SeriesStore.Ingest: `valuesSum` is an unbounded `nat`. The Go `uint64` would
  wrap, and `uint32` CPU values are not range-checked.
- SeriesStore.MakeKeyInjective: holds only for digests without `_`. With `_`
  allowed, `("a", "b_c", "d")` and `("a_b", "c", "d")` give the same key. The
  digests `ingest` receives are hex strings, so it never sees such a digest.
- `localeCompare` is modelled as plain lexicographic order on characters.
  Locale collation rules are out of scope.
- Timestamps and CPU times are integers, not JavaScript floating-point numbers.
- ChartData.ChartData: each digest's datum is a map from timestamp to value.
  The order of the `[timestamp, value]` pairs in a datum is not modelled. The
  keys are millisecond timestamps, far above the largest array index, so
  `for…in` visits them in insertion order. That is the order in which each
  timestamp's first in-range sample appears across the digest's series. The
  output is the ranked list of buckets with their totals, not a JavaScript
  object keyed by digest. A digest string that looks like an array
  index would be enumerated before the others by `Object.keys`; that is not
  modelled.
- PlotPrepare.PreparePlotDataSpec and PlotPrepare.TimelineSpec require each
  series to have distinct timestamps. This is what `getSeriesData` produces.
  With a single series `mergeTimestamps` returns its timestamps unchanged, so
  duplicates would survive into the timeline.
- TimestampMerge.MergeSortedUnion: the merge reads `b`'s head first on a tie.
  The model keeps that order, but only the values are stated. Which input a
  tied value came from cannot be observed.
- `preparePlotData` and `getSeriesData` sort in place. They reorder the
  caller's array of series and each series' `UnorderedValues`, and
  `getSeriesData` also replaces `UnorderedValues`. The caller sees these
  changes after the call. The model is purely functional: it returns the sorted
  copies and does not model this side effect on the arguments.
- Stacking and chart drawing in `App.tsx` are out of scope.
