# In-process metrics registry, modelled in Dafny

This project models the in-process metrics registry of a small Go service. The
registry exists in two versions.

- `metrics/metrics.go` (`Metrics`) keeps one `MetricSet` per compound key
  `name + "|" + labelName`. A `MetricSet` holds four maps: counters, observation
  counts and observation sums keyed by label value, and cumulative bucket counts
  keyed by bucket name. `Inc` adds to a counter. `Add` records one observation
  and counts it in every bucket whose bound is at or above it, using a downward
  early-exit scan. `Write` renders a sorted text exposition and computes the
  `+Inf` bucket at render time. `AddMetrics` folds another registry in, entry by
  entry.
- `statistics/statistics.go` (`Statistics`) is the older version. `New` appends
  an explicit `+Inf` sentinel boundary at `math.MaxFloat64`. `Add` counts
  observations in `counters`. `Write` always emits the summary and histogram
  blocks and writes `# EOF` after every entry.

Both registries are Dafny classes: `Metrics.Metrics` and `Statistics.Statistics`.
Their fields are the registry map (a `map<string, ...>` that the methods reassign)
and the boundary sequence. Each method is specified against pure functions of
the old state:

- `IncSet`, `ObserveSet` and `AddSet` give the effect of one call on one entry.
- `MergeNames` gives the effect of `AddMetrics`.
- `Render` and `CorrectedRender` give the lines `Write` produces.

The properties the source promises are then proved about those functions.

Modules:

- `Text`: Go string order and `sort.Strings`, the compound key and its split,
  `strconv.FormatUint`, `strconv.Quote` and `strings.ReplaceAll`.
- `Counts`: `uint64` as a newtype with wrap-around addition, reading a Go map,
  map totals, and the entrywise `+=` merge.
- `Histogram`: bounds, `sort.Float64s`, the construction loop, the bucket scan
  and the cumulative invariant.
- `Exposition`: the line formats and the summary and bucket loops that both
  `Write`s share.
- `Metrics` and `Statistics`: the two registries.

`Write` is modelled as the sequence of chunks handed to the writer, one per
`Write` call, in order.

Where the prose description of the system and the code differ, the model follows
the code:

- Bucket counts are keyed by bucket name only, so they add up the observations
  of every label value. They are not kept per label value.
- In `metrics/metrics.go` no stored bucket has to equal the observation count,
  because the `+Inf` bucket is computed at render time. `Statistics` does store
  a `+Inf` bucket, and it does equal the count (`Statistics.AddKeepsInvariant`).

## Model

| member | source | states |
|---|---|---|
| Text.LessTransitive | metrics/metrics.go:101 | the string order used by `sort.Strings` is transitive |
| Text.LessTotal | metrics/metrics.go:101 | any two different strings are ordered one way or the other |
| Text.AscendingUnique | metrics/metrics.go:97-101 | two ascending sequences with the same elements are equal, so the sorted key order is unique |
| Text.SortedKeysOf | metrics/metrics.go:97-101 | collecting a map's keys and sorting them gives every key exactly once, in ascending order (`SortedKeys`) |
| Text.Key | metrics/metrics.go:52 | the compound key (also statistics/statistics.go:47) is the metric name, one vertical-bar character, then the label name |
| Text.SplitKey | metrics/metrics.go:104-106 | splitting at most once at the vertical-bar character gives the text before the first bar, which holds no bar, and the text after it; joined around a bar they rebuild the key |
| Text.SplitKeyOfKey | metrics/metrics.go:52 | splitting the compound key gives back `(name, labelName)` whenever `name` has no bar character |
| Text.KeyCollision | metrics/metrics.go:52 | with a bar character in the metric name, two different (name, label) pairs share one key and the split returns neither |
| Text.Decimal | metrics/metrics.go:118 | `FormatUint(n, 10)` yields at least one decimal digit and no leading zero |
| Text.DecimalRoundTrip | metrics/metrics.go:118 | parsing the digits `FormatUint` writes gives the number back |
| Text.Escape | metrics/metrics.go:118 | the escaped label value holds no newline: a newline in it is written as backslash-n |
| Text.Quote | metrics/metrics.go:136 | `strconv.Quote`: the escaped text between double quotes; its properties are stated by `Text.QuoteReadsBack` |
| Text.QuoteReadsBack | metrics/metrics.go:139 | a quoted value starts and ends with a double quote, holds no newline, and unescaping what lies between the quotes gives the value back |
| Text.EscapeRoundTrip | metrics/metrics.go:118 | unquoting what `strconv.Quote` escapes gives back the original label value |
| Text.EscapePlain | metrics/metrics.go:147 | a name without quotes, backslashes or control characters is quoted as it stands |
| Text.Spaced | metrics/metrics.go:110 | `ReplaceAll(name, "_", " ")` keeps the length, turns every `_` into a space, keeps every other character, and leaves no `_` |
| Counts.Add64Associative | metrics/metrics.go:63 | `uint64` addition with wrap-around is associative |
| Counts.Bumps | metrics/metrics.go:80 | `n` increments of a `uint64` give the old value plus `n`, modulo 2^64 (the observation counts of `Metrics.ObserveAllCounts` and `Statistics.AddAllCounts`) |
| Counts.TotalUpdate | metrics/metrics.go:80 | storing a new value at one key moves the map's total by the difference |
| Counts.ValueAtMostTotal | metrics/metrics.go:133-135 | no single count exceeds the sum of all counts |
| Counts.SeqSumIsTotal | metrics/metrics.go:131-135 | adding the counts along a duplicate-free listing of all keys gives the map's total |
| Counts.CombineCommutes | metrics/metrics.go:165-167 | merging `s` into `t` equals merging `t` into `s` when `+` commutes and zero is its identity |
| Counts.CombineAssociates | metrics/metrics.go:165-176 | merging `a` then `b` equals merging the merge of `a` and `b` when `+` associates |
| Counts.Combine64 | metrics/metrics.go:165-170 | merging two `uint64` maps with `+=` gives every key of either map, each holding the wrapped sum of both cells, a missing cell counting as zero |
| Counts.CombineReal | metrics/metrics.go:171-173 | merging two sum maps with `+=` gives every key of either map, each holding the sum of both cells |
| Counts.AddEach | metrics/metrics.go:165-167 | the loop `target[k] += v` over `source` yields the entrywise merge `Combine` |
| Histogram.SortReals | metrics/metrics.go:41 | `sort.Float64s` yields an ascending permutation of its input |
| Histogram.SortedUnique | metrics/metrics.go:41 | two ascending sequences with the same values are equal |
| Histogram.MakeBounds | metrics/metrics.go:41-45 | one bound per input value, ascending, a permutation of the inputs, each named by `%g` of its value |
| Histogram.Bump | metrics/metrics.go:87 | `m[name]++`: the cell of `name` (zero when missing) goes up by one modulo 2^64, and every other cell stays as it was |
| Histogram.Bumped | metrics/metrics.go:82-88 | one observation keeps every existing bucket and gives a bucket to every bound at or above it (its exact count is `Histogram.BumpedCell`) |
| Histogram.BumpedCell | metrics/metrics.go:82-88 | after an observation, each bucket holds its old count plus the number of bounds with that name at or above the observation, modulo 2^64; it exists iff it existed or was counted into |
| Histogram.HitsDistinct | metrics/metrics.go:82-88 | with distinct bound names, a bound's bucket is counted into once if the observation is at or below the bound, and not at all otherwise |
| Histogram.DuplicateBoundsCountTwice | metrics/metrics.go:43 | two equal bound values share one `%g` name, and one observation then counts twice in that bucket |
| Histogram.Observe | metrics/metrics.go:82-88 | on ascending bounds, the downward scan that stops at the first bound below the observation equals counting every bound at or above it |
| Histogram.BumpedKeepsCumulative | metrics/metrics.go:82-88 | one observation keeps bucket counts non-decreasing along ascending bounds and raises the bound on each count by one |
| Exposition.TypeLine | metrics/metrics.go:109 | the `# TYPE <family> <kind>` line with its newline (also metrics/metrics.go:123, 142 and statistics/statistics.go:83, 101); `Exposition.HeaderLinesWhole` proves it one line |
| Exposition.UnitLine | metrics/metrics.go:124 | the `# UNIT <family> seconds` line with its newline (also metrics/metrics.go:143) |
| Exposition.HelpLine | metrics/metrics.go:110 | the `# HELP <family> A <kind> of the <name with spaces>.` line with its newline (also metrics/metrics.go:125, 144 and statistics/statistics.go:82, 100) |
| Exposition.CounterLine | metrics/metrics.go:118 | the `<m>_total{<label>=<quoted value>} <count>` line with its newline |
| Exposition.CountLine | metrics/metrics.go:136 | the `<m>_seconds_count{<label>=<quoted value>} <count>` line with its newline (also statistics/statistics.go:94) |
| Exposition.SumLine | metrics/metrics.go:139 | the `<m>_seconds_sum{<label>=<quoted value>} <sum to 3 places>` line with its newline (also statistics/statistics.go:97) |
| Exposition.BucketLine | metrics/metrics.go:147 | the `<m>_total_seconds_bucket{le=<quoted name>} <count>` line with its newline, and with the name `+Inf` the line of metrics/metrics.go:149 (also statistics/statistics.go:104) |
| Exposition.TotalSumLine | metrics/metrics.go:150 | the `<m>_total_seconds_sum <sum to 3 places>` line with its newline (also statistics/statistics.go:106) |
| Exposition.TotalCountLine | metrics/metrics.go:151 | the `<m>_total_seconds_count <count>` line with its newline (also statistics/statistics.go:107) |
| Exposition.HeaderLinesWhole | metrics/metrics.go:109-110 | the TYPE, UNIT and HELP lines each end in their newline and hold no other, when the names hold none |
| Exposition.CountLinesWhole | metrics/metrics.go:118 | the counter and count lines each end in their newline and hold no other, whatever the label value holds |
| Exposition.SumLinesWhole | metrics/metrics.go:139 | the sum lines each end in their newline and hold no other, whatever the label value holds, when the formatted sum holds none |
| Exposition.BucketLinesWhole | metrics/metrics.go:147 | the bucket and total count lines each end in their newline and hold no other, whatever the bound name holds |
| Exposition.QuoteInf | metrics/metrics.go:149 | the literal `le="+Inf"` is the quoted name `+Inf` |
| Exposition.SummaryLinesAt | metrics/metrics.go:133-140 | line `2i` is the count line of the `i`-th label value and line `2i+1` its sum line |
| Exposition.BucketLinesAt | metrics/metrics.go:145-148 | line `i` is the bucket line of the `i`-th stored bound, showing its count (zero when never counted into) |
| Exposition.WriteSummary | metrics/metrics.go:131-140 | the count and sum loop writes the summary lines, and its `count` is the total of the counts modulo 2^64 |
| Exposition.WriteBuckets | metrics/metrics.go:145-148 | the bucket loop writes one line per stored bound in stored order |
| Metrics.IncSet | metrics/metrics.go:63 | `Inc` on one entry adds `delta` (mod 2^64) to the counter of its label value and changes nothing else |
| Metrics.ObserveSet | metrics/metrics.go:80-88 | `Add` on one entry leaves the counters alone, adds one (mod 2^64) to the observation count and `d` to the sum of its label value only, and keeps every bucket |
| Metrics.ObserveAllCounts | metrics/metrics.go:80-81 | `n` calls of `Add` on one label value raise its observation count by `n` (mod 2^64) and its sum by the sum of the durations, and change no other label value and no counter |
| Metrics.IncAllAddsUp | metrics/metrics.go:49-64 | a run of `Inc` calls on one label value adds the sum of the deltas (mod 2^64) and changes no other label value and no other map |
| Metrics.ObserveSetEffect | metrics/metrics.go:66-88 | `Add` leaves the counters alone, adds 1 to the observation count and `d` to the sum of its label value only, and adds 1 to exactly the buckets of bounds at or above `d` |
| Metrics.ObserveKeepsHistogram | metrics/metrics.go:80-88 | `Add` keeps bucket counts non-decreasing along the bounds and each at most the total number of observations, which grows by one |
| Metrics.MergeSet | metrics/metrics.go:164-177 | a shared key's two entries merge map by map: every label value or bucket of either side, each holding the sum of both cells |
| Metrics.MergeNames | metrics/metrics.go:160-178 | `AddMetrics` leaves every key of either registry: shared keys merged, other keys kept as they were |
| Metrics.MergeCommutes | metrics/metrics.go:157-179 | merging `b` into `a` gives the same registry as merging `a` into `b` |
| Metrics.MergeAssociatesOnCounts | metrics/metrics.go:157-179 | on the integer maps, merging `a` then `b` equals merging the merge of `a` and `b` |
| Metrics.MergeOrderIrrelevant | metrics/metrics.go:157-179 | on the integer maps, the order in which two registries are merged into a third does not matter |
| Metrics.MergeEntry | metrics/metrics.go:164-177 | the four `+=` loops for a key present on both sides give the entrywise merge |
| Metrics.WriteCounters | metrics/metrics.go:108-120 | the counter block: TYPE, HELP, then one `_total` line per label value in ascending order |
| Metrics.WriteDurations | metrics/metrics.go:122-152 | the summary and histogram blocks, where the `+Inf` bucket and the count show the total number of observations modulo 2^64 |
| Metrics.WriteEntry | metrics/metrics.go:102-153 | the counter block iff there are counters, then the duration blocks iff there are observations |
| Metrics.CounterBlock | metrics/metrics.go:108-120 | the counter block: TYPE, HELP, then one counter line per label value in ascending order (computed by `Metrics.WriteCounters`) |
| Metrics.DurationBlock | metrics/metrics.go:122-152 | the summary and histogram blocks (computed by `Metrics.WriteDurations`; totals in `Metrics.DurationBlockTotals`) |
| Metrics.EntryLines | metrics/metrics.go:102-152 | one key's output: the counter block if it has counters, then the duration blocks if it has observations |
| Metrics.Render | metrics/metrics.go:97-154 | the whole output: the entries in ascending key order, then `# EOF` (see `Metrics.RenderEndsWithEof`) |
| Metrics.DurationBlockTotals | metrics/metrics.go:145-151 | one bucket line per stored bound in order, then the `+Inf` line and the count line, which both show the total observation count |
| Metrics.RenderEndsWithEof | metrics/metrics.go:154 | `# EOF` is written exactly once, as the last line |
| Metrics.ObserveExample | metrics/metrics.go:66-88 | bounds 0.1, 0.5, 1 and observations 0.3 and 2 give count 2, sum 2.3, buckets 0, 1, 1 and total 2 |
| Metrics.HitsCounterBlock | metrics/metrics.go:108-120 | `Inc("hits","code","200",5)` gives a counter block of TYPE, HELP and one line for `200` |
| Exposition.HitsCounterLine | metrics/metrics.go:118 | that line is `hits_total{code="200"} 5` |
| Metrics.CounterExample | metrics/metrics.go:91-155 | rendering that registry gives TYPE, HELP, `hits_total{code="200"} 5` and `# EOF` |
| Metrics.Metrics.NewWithBuckets | metrics/metrics.go:36-47 | an empty registry whose bounds are the values sorted, one per value, named by `%g`, with no `+Inf` bound |
| Metrics.New | metrics/metrics.go:32-34 | an empty registry on the sorted default bounds |
| Metrics.Metrics.Inc | metrics/metrics.go:49-64 | creates the entry if missing, adds `delta` (mod 2^64) to the counter of the label value, and changes no other key |
| Metrics.Metrics.Add | metrics/metrics.go:66-89 | creates the entry if missing and applies one observation to it; nothing else changes |
| Metrics.Metrics.Write | metrics/metrics.go:91-155 | the lines are `Render`: entries in ascending key order, then `# EOF` |
| Metrics.Metrics.AddMetrics | metrics/metrics.go:157-179 | the registry becomes `MergeNames`: other's keys adopted, shared keys added entrywise, own keys kept |
| Statistics.AddSet | statistics/statistics.go:57-65 | `Add` on one entry adds one (mod 2^64) to the counter and `d` to the sum of its tag value only, and keeps every bucket |
| Statistics.AddAllCounts | statistics/statistics.go:57-58 | `n` calls of `Add` on one tag value raise its counter by `n` (mod 2^64) and its sum by the sum of the durations, and change no other tag value |
| Statistics.AddSetEffect | statistics/statistics.go:57-65 | `Add` adds 1 to the count and `d` to the sum of its tag value only, and adds 1 to exactly the buckets of boundaries at or above `d` |
| Statistics.SentinelBoundsAll | statistics/statistics.go:40 | under the invariant, no bucket exceeds the number of observations |
| Statistics.AddKeepsInvariant | statistics/statistics.go:57-65 | for durations up to the sentinel, `Add` keeps buckets non-decreasing and the `+Inf` bucket equal to the total count, which grows by one |
| Statistics.FreshInvariant | statistics/statistics.go:50-54 | a newly created entry satisfies the invariant |
| Statistics.SentinelExample | statistics/statistics.go:59-65 | with boundaries 1 and `+Inf`, observations 0.5 and 2 give count 2, bucket `1` at 1 and `+Inf` at 2 |
| Statistics.EntryLines | statistics/statistics.go:77-107 | one key's output before its end marker: both blocks, always |
| Statistics.Blocks | statistics/statistics.go:76-109 | the entries of the given keys in order, each followed by a trailer |
| Statistics.Render | statistics/statistics.go:68-110 | as written: the entries in ascending key order, each followed by `# EOF` without a newline (see `Statistics.RenderEofPerEntry`) |
| Statistics.CorrectedRender | statistics/statistics.go:68-110 | corrected: the entries in ascending key order, then one `# EOF` line (see `Statistics.CorrectedRenderEndsWithEof`) |
| Statistics.WriteEntry | statistics/statistics.go:77-107 | per key: HELP then TYPE (no UNIT), count and sum lines per tag value, HELP and TYPE, a bucket line per stored boundary, sum, count |
| Statistics.WriteBlocks | statistics/statistics.go:76-109 | the key loop writes each entry in the given order, each followed by its trailer |
| Statistics.EntryLayout | statistics/statistics.go:82-107 | one bucket line per stored boundary in stored order, and a final count line that shows the total count modulo 2^64 |
| Statistics.EntryTotals | statistics/statistics.go:102-107 | under the invariant, the last bucket line is `+Inf` and shows the same total as the count line |
| Statistics.EofBeforeLast | statistics/statistics.go:108 | with two keys or more, an `# EOF` chunk comes before the last line |
| Statistics.RenderEofPerEntry | statistics/statistics.go:108 | as written, `# EOF` without newline appears once per key: never for an empty registry, and before the end when there are two keys or more |
| Statistics.CorrectedRenderEndsWithEof | statistics/statistics.go:108 | the corrected output ends in `# EOF` with a newline, and no earlier line is an end marker |
| Statistics.Statistics.New | statistics/statistics.go:30-42 | boundaries are the values sorted, one per value, named by `%g`, followed by exactly one `+Inf` sentinel at `MaxFloat64` |
| Statistics.Statistics.Add | statistics/statistics.go:44-66 | creates the entry if missing and applies one observation to it; nothing else changes |
| Statistics.Statistics.Write | statistics/statistics.go:68-110 | the lines are `Render`: entries in ascending key order, each followed by `# EOF` |
| Statistics.Statistics.WriteCorrected | statistics/statistics.go:68-110 | the lines are `CorrectedRender`: the same entries, then one `# EOF` line |

## Left out

- Locking: the mutex in every method is left out. Each method is one atomic step.
- `WriteGob` and `ReadGob` (metrics/metrics.go:181-191) are left out. They call the `encoding/gob` library, which is not part of this model.
- The gzip writer and the `Content-Encoding` header in `Write` are left out. Only the chunks handed to the writer are modelled.
- Floating point: durations, sums and bounds are `real`. Rounding, NaN and infinite durations are left out.
  - Go's `%g` formatting and `FormatFloat(x, 'f', 3, 64)` are function parameters (`formatG`, `fixed3`).
- Text.Quote: only the escapes of `"`, `\` and the seven C control escapes are modelled. Go's `\x`/`\u` escapes for other non-printable characters are left out. Go strings are bytes and Dafny strings are Unicode scalar values, so a label value that is not valid UTF-8 cannot be expressed, and the `\x` escapes `strconv.Quote` writes for its bytes are not modelled.
- Text.Less: compares Unicode scalar values. For valid UTF-8 this is the byte order of `sort.Strings` (metrics/metrics.go:101, 115, 130). Keys and label values that are not valid UTF-8 cannot be expressed, so their byte order is not modelled.
- Metrics.Metrics.AddMetrics: Go stores the other registry's `MetricSet` itself, so both registries share its inner maps. With Dafny value maps it is a copy, so later aliasing through the other registry is not modelled.
- Metrics.Metrics.NewWithBuckets: Go sorts the caller's slice in place. The model sorts a copy, so the caller's slice is not modelled as changed.
- Statistics.Statistics.New: Go sorts the caller's slice in place. The model sorts a copy, so the caller's slice is not modelled as changed.
- Statistics.Statistics.New: requires every value to be at most `MaxFloat64`. Every finite `float64` meets this; `+Inf` and NaN inputs are left out.
- Metrics.New: states the bounds as `SortReals` of the default list rather than the sorted literal.
- Statistics.AddKeepsInvariant: holds only for distinct boundary names, durations up to `MaxFloat64` and fewer than 2^64 observations. `Histogram.DuplicateBoundsCountTwice` shows the count going wrong when two boundaries share a name.
- Metrics.ObserveKeepsHistogram: holds only for distinct bound names and fewer than 2^64 observations.
- Metrics.MergeAssociatesOnCounts: stated for the integer maps only, because float addition does not associate.
- Metrics.MergeOrderIrrelevant: stated for the integer maps only, because float addition does not associate.
- `writer.php` (a TCP client) and `perf.php` (a timing loop) are network I/O and wall-clock measurement. They are not part of this model.

## Findings

| source | as written | input that shows it | evidently intended | confidence | as-written member | corrected member |
|---|---|---|---|---|---|---|
| statistics/statistics.go:108 | `Write` writes `# EOF`, with no newline, after every entry, and none for an empty registry | a registry with two keys gives an `# EOF` chunk that is not last, and the next entry's `# HELP` continues the same line; an empty registry gives no `# EOF` at all | one `# EOF` line, with its newline, written once at the very end, as metrics/metrics.go:154 does | not executed | Statistics.RenderEofPerEntry | Statistics.CorrectedRenderEndsWithEof |

`Statistics.Statistics.Write` models the code as written. `Statistics.Statistics.WriteCorrected` writes
the corrected output. Both share the same entry loop, `Statistics.WriteBlocks`.
