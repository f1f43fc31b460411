/** The registry of metrics/metrics.go: per (metric name, label name) a set of
    counters, observation counts, observation sums and cumulative bucket counts;
    updated by `Inc` and `Add`, rendered by `Write`, merged by `AddMetrics`. */
module Metrics {
  import opened Text
  import opened Counts
  import opened Histogram
  import opened Exposition

  type Bucket = Bound

  /** The per-key accumulator. All four maps are keyed by label value, except
      `buckets`, which is keyed by bucket name and so adds up observations of
      every label value. */
  datatype MetricSet = MetricSet(
    counters: map<string, u64>,
    durationCounts: map<string, u64>,
    durationSums: map<string, real>,
    buckets: map<string, u64>)

  /** The entry created on first use of a key. */
  const Empty := MetricSet(map[], map[], map[], map[])

  /** The bounds `New` uses, in seconds. */
  const DefaultBuckets: seq<real> := [0.005, 0.01, 0.025, 0.05, 0.1, 0.25, 0.5, 1.0, 2.5, 5.0, 10.0]

  /** The entry under `key`, or the one that would be created for it. */
  function Lookup(names: map<string, MetricSet>, key: string): MetricSet
  {
    if key in names then names[key] else Empty
  }

  // ----- what one call does to one entry -----

  /** `Inc`: `delta` more on the counter of `labelValue`. */
  function IncSet(ss: MetricSet, labelValue: string, delta: u64): (r: MetricSet)
    ensures Get(r.counters, labelValue, 0) as int == (Get(ss.counters, labelValue, 0) as int + delta as int) % TWO_TO_THE_64
    ensures r.counters - {labelValue} == ss.counters - {labelValue}
    ensures r.(counters := ss.counters) == ss
  {
    ss.(counters := ss.counters[labelValue := Add64(Get(ss.counters, labelValue, 0), delta)])
  }

  /** `Add`: one more observation of `labelValue`, `d` more on its sum, and the
      observation counted in every bucket at or above `d`. */
  function ObserveSet(ss: MetricSet, labelValue: string, d: real, bs: seq<Bucket>): (r: MetricSet)
    ensures r.counters == ss.counters
    ensures Get(r.durationCounts, labelValue, 0) as int == (Get(ss.durationCounts, labelValue, 0) as int + 1) % TWO_TO_THE_64
    ensures r.durationCounts - {labelValue} == ss.durationCounts - {labelValue}
    ensures Get(r.durationSums, labelValue, 0.0) == Get(ss.durationSums, labelValue, 0.0) + d
    ensures r.durationSums - {labelValue} == ss.durationSums - {labelValue}
    ensures ss.buckets.Keys <= r.buckets.Keys
  {
    ss.(durationCounts := Bump(ss.durationCounts, labelValue),
        durationSums := ss.durationSums[labelValue := Get(ss.durationSums, labelValue, 0.0) + d],
        buckets := Bumped(bs, ss.buckets, d))
  }

  /** `Inc` called once per delta on one label value. */
  function IncAll(ss: MetricSet, labelValue: string, deltas: seq<u64>): MetricSet
  {
    if deltas == [] then ss
    else IncSet(IncAll(ss, labelValue, deltas[..|deltas| - 1]), labelValue, deltas[|deltas| - 1])
  }

  function SumOf(deltas: seq<u64>): nat
  {
    if deltas == [] then 0 else SumOf(deltas[..|deltas| - 1]) + deltas[|deltas| - 1] as int
  }

  /** A run of `Inc` calls on one label value leaves its counter at the old value
      plus the sum of the deltas (modulo 2^64), and changes nothing else: no
      other label value's counter and none of the other three maps. */
  lemma {:induction false} IncAllAddsUp(ss: MetricSet, labelValue: string, deltas: seq<u64>)
    ensures Get(IncAll(ss, labelValue, deltas).counters, labelValue, 0) as int
         == (Get(ss.counters, labelValue, 0) as int + SumOf(deltas)) % TWO_TO_THE_64
    ensures IncAll(ss, labelValue, deltas).counters - {labelValue} == ss.counters - {labelValue}
    ensures IncAll(ss, labelValue, deltas).(counters := ss.counters) == ss
    decreases |deltas|
  {
    if deltas != [] {
      var init := deltas[..|deltas| - 1];
      IncAllAddsUp(ss, labelValue, init);
      ModAddLeft(Get(ss.counters, labelValue, 0) as int + SumOf(init), deltas[|deltas| - 1] as int);
      assert IncAll(ss, labelValue, deltas).counters - {labelValue}
          == IncAll(ss, labelValue, init).counters - {labelValue};
    }
  }

  /** `Add` called once per duration on one label value. */
  function ObserveAll(ss: MetricSet, labelValue: string, ds: seq<real>, bs: seq<Bucket>): MetricSet
  {
    if ds == [] then ss
    else ObserveSet(ObserveAll(ss, labelValue, ds[..|ds| - 1], bs), labelValue, ds[|ds| - 1], bs)
  }

  /** A run of `Add` calls on one label value bumps its observation count once
      per call (so `n` calls are `Bumps` by `n`, modulo 2^64) and adds every
      duration to its sum; the counters and every other label value stay. */
  lemma {:induction false} ObserveAllCounts(ss: MetricSet, labelValue: string, ds: seq<real>, bs: seq<Bucket>)
    ensures Get(ObserveAll(ss, labelValue, ds, bs).durationCounts, labelValue, 0)
         == Bumps(Get(ss.durationCounts, labelValue, 0), |ds|)
    ensures Get(ObserveAll(ss, labelValue, ds, bs).durationSums, labelValue, 0.0)
         == Get(ss.durationSums, labelValue, 0.0) + SumOfReals(ds)
    ensures ObserveAll(ss, labelValue, ds, bs).counters == ss.counters
    ensures ObserveAll(ss, labelValue, ds, bs).durationCounts - {labelValue} == ss.durationCounts - {labelValue}
    ensures ObserveAll(ss, labelValue, ds, bs).durationSums - {labelValue} == ss.durationSums - {labelValue}
    decreases |ds|
  {
    if ds != [] {
      var init := ds[..|ds| - 1];
      ObserveAllCounts(ss, labelValue, init, bs);
      var before := ObserveAll(ss, labelValue, init, bs);
      assert ObserveAll(ss, labelValue, ds, bs).durationCounts - {labelValue}
          == before.durationCounts - {labelValue};
      assert ObserveAll(ss, labelValue, ds, bs).durationSums - {labelValue}
          == before.durationSums - {labelValue};
    }
  }

  /** One observation adds exactly one to the observation count of its label
      value and `d` to its sum, leaves the counters and every other label value
      alone, and adds one to the bucket of every bound at or above `d`, leaving
      every other bucket as it was. */
  lemma ObserveSetEffect(ss: MetricSet, labelValue: string, d: real, bs: seq<Bucket>, name: string)
    requires DistinctNames(bs)
    ensures ObserveSet(ss, labelValue, d, bs).counters == ss.counters
    ensures Get(ObserveSet(ss, labelValue, d, bs).durationCounts, labelValue, 0)
         == Add64(Get(ss.durationCounts, labelValue, 0), 1)
    ensures ObserveSet(ss, labelValue, d, bs).durationCounts - {labelValue} == ss.durationCounts - {labelValue}
    ensures Get(ObserveSet(ss, labelValue, d, bs).durationSums, labelValue, 0.0)
         == Get(ss.durationSums, labelValue, 0.0) + d
    ensures ObserveSet(ss, labelValue, d, bs).durationSums - {labelValue} == ss.durationSums - {labelValue}
    ensures Get(ObserveSet(ss, labelValue, d, bs).buckets, name, 0)
         == if exists i :: 0 <= i < |bs| && bs[i].name == name && d <= bs[i].value
            then Add64(Get(ss.buckets, name, 0), 1)
            else Get(ss.buckets, name, 0)
  {
    BumpedCell(bs, ss.buckets, d, name);
    if i :| 0 <= i < |bs| && bs[i].name == name && d <= bs[i].value {
      HitsDistinct(bs, i, d);
    } else {
      HitsNone(bs, name, d);
    }
  }

  /** The cumulative-histogram invariant of an entry: bucket counts never
      decrease along ascending bounds, and none exceeds the number of
      observations of all label values together. */
  ghost predicate HistogramInvariant(ss: MetricSet, bs: seq<Bucket>)
  {
    Cumulative(bs, ss.buckets) && AtMost(bs, ss.buckets, Total(ss.durationCounts))
  }

  /** `Add` keeps the histogram invariant, as long as the total number of
      observations stays below 2^64. */
  lemma ObserveKeepsHistogram(ss: MetricSet, labelValue: string, d: real, bs: seq<Bucket>)
    requires ByValue(bs) && DistinctNames(bs)
    requires HistogramInvariant(ss, bs)
    requires Total(ss.durationCounts) + 1 < TWO_TO_THE_64
    ensures HistogramInvariant(ObserveSet(ss, labelValue, d, bs), bs)
    ensures Total(ObserveSet(ss, labelValue, d, bs).durationCounts) == Total(ss.durationCounts) + 1
  {
    var dc := ss.durationCounts;
    BumpedKeepsCumulative(bs, ss.buckets, d, Total(dc));
    ValueAtMostTotal(dc, labelValue);
    TotalUpdate(dc, labelValue, Add64(Get(dc, labelValue, 0), 1));
  }

  // ----- AddMetrics -----

  /** Two entries under the same key, added entrywise. */
  function MergeSet(a: MetricSet, b: MetricSet): (r: MetricSet)
    ensures MergedCounts(r.counters, a.counters, b.counters)
    ensures MergedCounts(r.durationCounts, a.durationCounts, b.durationCounts)
    ensures MergedSums(r.durationSums, a.durationSums, b.durationSums)
    ensures MergedCounts(r.buckets, a.buckets, b.buckets)
  {
    Combine64(a.counters, b.counters);
    Combine64(a.durationCounts, b.durationCounts);
    CombineReal(a.durationSums, b.durationSums);
    Combine64(a.buckets, b.buckets);
    MetricSet(
      Combine(a.counters, b.counters, Add64, 0),
      Combine(a.durationCounts, b.durationCounts, Add64, 0),
      Combine(a.durationSums, b.durationSums, AddReal, 0.0),
      Combine(a.buckets, b.buckets, Add64, 0))
  }

  /** The registry after `AddMetrics`: keys of `b` missing from `a` are adopted,
      keys in both are added entrywise, keys only in `a` stay. */
  function MergeNames(a: map<string, MetricSet>, b: map<string, MetricSet>): (r: map<string, MetricSet>)
    ensures r.Keys == a.Keys + b.Keys
    ensures forall k :: k in a && k in b ==> r[k] == MergeSet(a[k], b[k])
    ensures forall k :: k in a && k !in b ==> r[k] == a[k]
    ensures forall k :: k !in a && k in b ==> r[k] == b[k]
  {
    map k | k in a.Keys + b.Keys ::
      if k in a && k in b then MergeSet(a[k], b[k]) else if k in a then a[k] else b[k]
  }

  /** The entry under `k` once the keys of `source` outside `todo` are merged. */
  function Merged(a: map<string, MetricSet>, source: map<string, MetricSet>, todo: set<string>, k: string): MetricSet
    requires k in a || (k in source && k !in todo)
  {
    if k in source && k !in todo then
      (if k in a then MergeSet(a[k], source[k]) else source[k])
    else a[k]
  }

  /** One key of `AddMetrics`: storing the merged entry for `key` moves `key`
      from the pending keys to the merged ones. */
  lemma MergeStep(a: map<string, MetricSet>, source: map<string, MetricSet>, todo: set<string>,
                  names: map<string, MetricSet>, key: string, v: MetricSet)
    requires key in todo && todo <= source.Keys
    requires names.Keys == a.Keys + (source.Keys - todo)
    requires forall k :: k in names ==> names[k] == Merged(a, source, todo, k)
    requires v == if key in names then MergeSet(names[key], source[key]) else source[key]
    ensures names[key := v].Keys == a.Keys + (source.Keys - (todo - {key}))
    ensures forall k :: k in names[key := v] ==> names[key := v][k] == Merged(a, source, todo - {key}, k)
  {
  }

  /** With no key pending, the merged entries are `MergeNames`. */
  lemma MergedAll(a: map<string, MetricSet>, source: map<string, MetricSet>, names: map<string, MetricSet>)
    requires names.Keys == a.Keys + (source.Keys - {})
    requires forall k :: k in names ==> names[k] == Merged(a, source, {}, k)
    ensures names == MergeNames(a, source)
  {
    var r := MergeNames(a, source);
    forall k | k in names ensures names[k] == r[k] {
      if k in a && k in source {
        assert names[k] == MergeSet(a[k], source[k]);
      }
    }
  }

  /** The integer part of a registry: the float sums erased. */
  function CountsOnly(names: map<string, MetricSet>): (r: map<string, MetricSet>)
    ensures r.Keys == names.Keys
  {
    map k | k in names :: names[k].(durationSums := map[])
  }

  /** Merging `b` into `a` gives the same registry as merging `a` into `b`. */
  lemma MergeCommutes(a: map<string, MetricSet>, b: map<string, MetricSet>)
    ensures MergeNames(a, b) == MergeNames(b, a)
  {
    Add64Laws();
    AddRealCommutes();
    forall k | k in a && k in b ensures MergeSet(a[k], b[k]) == MergeSet(b[k], a[k]) {
      CombineCommutes(a[k].counters, b[k].counters, Add64, 0);
      CombineCommutes(a[k].durationCounts, b[k].durationCounts, Add64, 0);
      CombineCommutes(a[k].durationSums, b[k].durationSums, AddReal, 0.0);
      CombineCommutes(a[k].buckets, b[k].buckets, Add64, 0);
    }
    assert MergeNames(a, b).Keys == MergeNames(b, a).Keys;
  }

  lemma MergeSetAssociatesOnCounts(x: MetricSet, y: MetricSet, z: MetricSet)
    ensures MergeSet(MergeSet(x, y), z).(durationSums := map[]) == MergeSet(x, MergeSet(y, z)).(durationSums := map[])
  {
    Add64Laws();
    CombineAssociates(x.counters, y.counters, z.counters, Add64, 0);
    CombineAssociates(x.durationCounts, y.durationCounts, z.durationCounts, Add64, 0);
    CombineAssociates(x.buckets, y.buckets, z.buckets, Add64, 0);
  }

  lemma MergeAssociatesAt(s: map<string, MetricSet>, a: map<string, MetricSet>, b: map<string, MetricSet>, k: string)
    requires k in s || k in a || k in b
    ensures MergeNames(MergeNames(s, a), b)[k].(durationSums := map[])
         == MergeNames(s, MergeNames(a, b))[k].(durationSums := map[])
  {
    if k in s && k in a && k in b {
      MergeSetAssociatesOnCounts(s[k], a[k], b[k]);
    }
  }

  /** On the integer maps, merging `a` then `b` equals merging the merge of `a`
      and `b`. */
  lemma MergeAssociatesOnCounts(s: map<string, MetricSet>, a: map<string, MetricSet>, b: map<string, MetricSet>)
    ensures CountsOnly(MergeNames(MergeNames(s, a), b)) == CountsOnly(MergeNames(s, MergeNames(a, b)))
  {
    var l := CountsOnly(MergeNames(MergeNames(s, a), b));
    var r := CountsOnly(MergeNames(s, MergeNames(a, b)));
    forall k | k in l ensures l[k] == r[k] {
      MergeAssociatesAt(s, a, b, k);
    }
  }

  /** On the integer maps the order in which two registries are merged into a
      third does not matter. */
  lemma {:induction false} MergeOrderIrrelevant(s: map<string, MetricSet>, a: map<string, MetricSet>, b: map<string, MetricSet>)
    ensures CountsOnly(MergeNames(MergeNames(s, a), b)) == CountsOnly(MergeNames(MergeNames(s, b), a))
  {
    MergeAssociatesOnCounts(s, a, b);
    MergeAssociatesOnCounts(s, b, a);
    MergeCommutes(a, b);
  }

  // ----- Write -----

  function CounterLines(m: string, labelName: string, vs: seq<string>, counters: map<string, u64>): seq<string>
  {
    if vs == [] then []
    else CounterLines(m, labelName, vs[..|vs| - 1], counters)
           + [CounterLine(m, labelName, vs[|vs| - 1], Get(counters, vs[|vs| - 1], 0))]
  }

  lemma CounterLinesSnoc(m: string, labelName: string, vs: seq<string>, i: nat, counters: map<string, u64>)
    requires i < |vs|
    ensures CounterLines(m, labelName, vs[..i + 1], counters)
         == CounterLines(m, labelName, vs[..i], counters) + [CounterLine(m, labelName, vs[i], Get(counters, vs[i], 0))]
  {
    assert vs[..i + 1][..i] == vs[..i];
  }

  /** The counter block: two header lines, then one line per label value in
      ascending order. */
  ghost function CounterBlock(m: string, labelName: string, counters: map<string, u64>): seq<string>
  {
    [TypeLine(m, "counter"), HelpLine(m, "counter", m)]
      + CounterLines(m, labelName, SortedKeys(counters.Keys), counters)
  }

  /** The three header lines of the summary block. */
  function SummaryHead(m: string): seq<string>
  {
    [TypeLine(m + "_seconds", "summary"), UnitLine(m + "_seconds"), HelpLine(m + "_seconds", "summary", m)]
  }

  /** The three header lines of the histogram block. */
  function HistogramHead(m: string): seq<string>
  {
    [TypeLine(m + "_total_seconds", "histogram"), UnitLine(m + "_total_seconds"),
     HelpLine(m + "_total_seconds", "histogram", m)]
  }

  /** The `+Inf` bucket, the sum and the count that close the histogram block. */
  function HistogramTail(m: string, count: u64, sum: real, fixed3: real -> string): seq<string>
  {
    [BucketLine(m, "+Inf", count), TotalSumLine(m, sum, fixed3), TotalCountLine(m, count)]
  }

  /** The summary block (a count and a sum line per label value, ascending) and
      the histogram block (one line per stored bound, then `+Inf`, sum and count
      over all label values). The `+Inf` bucket and the count show the number of
      observations of all label values together, modulo 2^64. */
  ghost function DurationBlock(m: string, labelName: string, ss: MetricSet, bs: seq<Bucket>, fixed3: real -> string): seq<string>
  {
    var vs := SortedKeys(ss.durationCounts.Keys);
    var count := (Total(ss.durationCounts) % TWO_TO_THE_64) as u64;
    SummaryHead(m)
      + SummaryLines(m, labelName, vs, ss.durationCounts, ss.durationSums, fixed3)
      + HistogramHead(m)
      + BucketLines(m, bs, ss.buckets)
      + HistogramTail(m, count, RealSum(vs, ss.durationSums), fixed3)
  }

  /** Everything written for one key: the counter block if there are counters,
      the summary and histogram blocks if there are observations. */
  ghost function EntryLines(key: string, ss: MetricSet, bs: seq<Bucket>, fixed3: real -> string): seq<string>
    requires '|' in key
  {
    var (m, labelName) := SplitKey(key);
    (if |ss.counters| > 0 then CounterBlock(m, labelName, ss.counters) else [])
      + (if |ss.durationCounts| > 0 then DurationBlock(m, labelName, ss, bs, fixed3) else [])
  }

  ghost predicate SplittableKeys(keys: seq<string>, names: map<string, MetricSet>)
  {
    forall i :: 0 <= i < |keys| ==> keys[i] in names && '|' in keys[i]
  }

  ghost function EntriesLines(keys: seq<string>, names: map<string, MetricSet>, bs: seq<Bucket>, fixed3: real -> string): seq<string>
    requires SplittableKeys(keys, names)
  {
    if keys == [] then []
    else EntriesLines(keys[..|keys| - 1], names, bs, fixed3)
           + EntryLines(keys[|keys| - 1], names[keys[|keys| - 1]], bs, fixed3)
  }

  lemma EntriesLinesSnoc(keys: seq<string>, i: nat, names: map<string, MetricSet>, bs: seq<Bucket>, fixed3: real -> string)
    requires SplittableKeys(keys, names) && i < |keys|
    ensures SplittableKeys(keys[..i], names) && SplittableKeys(keys[..i + 1], names)
    ensures EntriesLines(keys[..i + 1], names, bs, fixed3)
         == EntriesLines(keys[..i], names, bs, fixed3) + EntryLines(keys[i], names[keys[i]], bs, fixed3)
  {
    assert keys[..i + 1][..i] == keys[..i];
  }

  /** The whole exposition: every entry in ascending key order, then `# EOF`. */
  ghost function Render(names: map<string, MetricSet>, bs: seq<Bucket>, fixed3: real -> string): seq<string>
    requires forall k :: k in names ==> '|' in k
  {
    EntriesLines(SortedKeys(names.Keys), names, bs, fixed3) + ["# EOF\n"]
  }

  /** The counter loop of `Write`. */
  method WriteCounters(m: string, labelName: string, counters: map<string, u64>) returns (lines: seq<string>)
    ensures lines == CounterBlock(m, labelName, counters)
  {
    var header := [TypeLine(m, "counter"), HelpLine(m, "counter", m)];
    var vs := SortedKeysOf(counters.Keys);
    lines := header;
    for i := 0 to |vs|
      invariant lines == header + CounterLines(m, labelName, vs[..i], counters)
    {
      CounterLinesSnoc(m, labelName, vs, i, counters);
      var c := Get(counters, vs[i], 0);
      lines := lines + [CounterLine(m, labelName, vs[i], c)];
    }
    assert vs[..|vs|] == vs;
  }

  /** The summary and histogram part of `Write`; the `count` accumulated over
      the label values is the total number of observations modulo 2^64. */
  method WriteDurations(m: string, labelName: string, ss: MetricSet, bs: seq<Bucket>, fixed3: real -> string)
    returns (lines: seq<string>)
    ensures lines == DurationBlock(m, labelName, ss, bs, fixed3)
  {
    lines := SummaryHead(m);
    var vs := SortedKeysOf(ss.durationCounts.Keys);
    var summary, count, sum := WriteSummary(m, labelName, vs, ss.durationCounts, ss.durationSums, fixed3);
    AscendingDistinct(vs);
    SeqSumIsTotal(vs, ss.durationCounts);
    lines := lines + summary;
    lines := lines + HistogramHead(m);
    var bucketLines := WriteBuckets(m, bs, ss.buckets);
    lines := lines + bucketLines;
    lines := lines + HistogramTail(m, count, sum, fixed3);
  }

  /** The four `+=` loops of `AddMetrics` for a key present on both sides. */
  method MergeEntry(ss: MetricSet, value: MetricSet) returns (r: MetricSet)
    ensures r == MergeSet(ss, value)
  {
    var counters := AddEach(ss.counters, value.counters, Add64, 0);
    var counts := AddEach(ss.durationCounts, value.durationCounts, Add64, 0);
    var sums := AddEach(ss.durationSums, value.durationSums, AddReal, 0.0);
    var bucketCounts := AddEach(ss.buckets, value.buckets, Add64, 0);
    r := MetricSet(counters, counts, sums, bucketCounts);
  }

  /** The lines `Write` produces for one key. */
  method WriteEntry(key: string, ss: MetricSet, bs: seq<Bucket>, fixed3: real -> string) returns (lines: seq<string>)
    requires '|' in key
    ensures lines == EntryLines(key, ss, bs, fixed3)
  {
    var (m, labelName) := SplitKey(key);
    lines := [];
    if |ss.counters| > 0 {
      lines := WriteCounters(m, labelName, ss.counters);
    }
    if |ss.durationCounts| > 0 {
      var more := WriteDurations(m, labelName, ss, bs, fixed3);
      lines := lines + more;
    }
  }

  // ----- properties of the exposition -----

  lemma {:induction false} CounterLinesLong(m: string, labelName: string, vs: seq<string>, counters: map<string, u64>)
    ensures AllLong(CounterLines(m, labelName, vs, counters))
    decreases |vs|
  {
    if vs != [] {
      var v := vs[|vs| - 1];
      CounterLinesLong(m, labelName, vs[..|vs| - 1], counters);
      AllLongConcat(CounterLines(m, labelName, vs[..|vs| - 1], counters), [CounterLine(m, labelName, v, Get(counters, v, 0))]);
    }
  }

  lemma AllLong5(a: seq<string>, b: seq<string>, c: seq<string>, d: seq<string>, e: seq<string>)
    requires AllLong(a) && AllLong(b) && AllLong(c) && AllLong(d) && AllLong(e)
    ensures AllLong(a + b + c + d + e)
  {
    AllLongConcat(a, b);
    AllLongConcat(a + b, c);
    AllLongConcat(a + b + c, d);
    AllLongConcat(a + b + c + d, e);
  }

  lemma CounterBlockLong(m: string, labelName: string, counters: map<string, u64>)
    ensures AllLong(CounterBlock(m, labelName, counters))
  {
    var vs := SortedKeys(counters.Keys);
    CounterLinesLong(m, labelName, vs, counters);
    AllLongConcat([TypeLine(m, "counter"), HelpLine(m, "counter", m)], CounterLines(m, labelName, vs, counters));
  }

  lemma HeadersLong(m: string, c: u64, s: real, fixed3: real -> string)
    ensures AllLong(SummaryHead(m)) && AllLong(HistogramHead(m)) && AllLong(HistogramTail(m, c, s, fixed3))
  {
  }

  lemma DurationBlockLong(m: string, labelName: string, ss: MetricSet, bs: seq<Bucket>, fixed3: real -> string)
    ensures AllLong(DurationBlock(m, labelName, ss, bs, fixed3))
  {
    var vs := SortedKeys(ss.durationCounts.Keys);
    var count := (Total(ss.durationCounts) % TWO_TO_THE_64) as u64;
    HeadersLong(m, count, RealSum(vs, ss.durationSums), fixed3);
    SummaryLinesLong(m, labelName, vs, ss.durationCounts, ss.durationSums, fixed3);
    BucketLinesLong(m, bs, ss.buckets);
    AllLong5(SummaryHead(m),
             SummaryLines(m, labelName, vs, ss.durationCounts, ss.durationSums, fixed3),
             HistogramHead(m),
             BucketLines(m, bs, ss.buckets),
             HistogramTail(m, count, RealSum(vs, ss.durationSums), fixed3));
  }

  lemma EntryLinesLong(key: string, ss: MetricSet, bs: seq<Bucket>, fixed3: real -> string)
    requires '|' in key
    ensures AllLong(EntryLines(key, ss, bs, fixed3))
  {
    var (m, labelName) := SplitKey(key);
    CounterBlockLong(m, labelName, ss.counters);
    DurationBlockLong(m, labelName, ss, bs, fixed3);
    AllLongConcat(if |ss.counters| > 0 then CounterBlock(m, labelName, ss.counters) else [],
                  if |ss.durationCounts| > 0 then DurationBlock(m, labelName, ss, bs, fixed3) else []);
  }

  lemma {:induction false} EntriesLinesLong(keys: seq<string>, names: map<string, MetricSet>, bs: seq<Bucket>, fixed3: real -> string)
    requires SplittableKeys(keys, names)
    ensures AllLong(EntriesLines(keys, names, bs, fixed3))
    decreases |keys|
  {
    if keys != [] {
      var last := keys[|keys| - 1];
      EntriesLinesLong(keys[..|keys| - 1], names, bs, fixed3);
      EntryLinesLong(last, names[last], bs, fixed3);
      AllLongConcat(EntriesLines(keys[..|keys| - 1], names, bs, fixed3), EntryLines(last, names[last], bs, fixed3));
    }
  }

  /** `# EOF` is written exactly once, as the last line: no line of an entry
      can be mistaken for it. */
  lemma RenderEndsWithEof(names: map<string, MetricSet>, bs: seq<Bucket>, fixed3: real -> string)
    requires forall k :: k in names ==> '|' in k
    ensures Render(names, bs, fixed3)[|Render(names, bs, fixed3)| - 1] == "# EOF\n"
    ensures multiset(Render(names, bs, fixed3))["# EOF\n"] == 1
  {
    var keys := SortedKeys(names.Keys);
    var entries := EntriesLines(keys, names, bs, fixed3);
    EntriesLinesLong(keys, names, bs, fixed3);
    assert "# EOF\n" !in entries by {
      forall i | 0 <= i < |entries| ensures entries[i] != "# EOF\n" {
        assert |entries[i]| > 6;
      }
    }
    assert multiset(entries)["# EOF\n"] == 0;
    assert Render(names, bs, fixed3) == entries + ["# EOF\n"];
  }

  /** The histogram block ends with the `+Inf` bucket, the sum and the count;
      the `+Inf` bucket and the count both show `count`, the number of
      observations of all label values together (modulo 2^64), and there is one
      bucket line per stored bound before them. */
  lemma DurationBlockTotals(m: string, labelName: string, ss: MetricSet, bs: seq<Bucket>, fixed3: real -> string, count: u64)
    requires count as int == Total(ss.durationCounts) % TWO_TO_THE_64
    ensures |DurationBlock(m, labelName, ss, bs, fixed3)| == 9 + 2 * |ss.durationCounts| + |bs|
    ensures DurationBlock(m, labelName, ss, bs, fixed3)[6 + 2 * |ss.durationCounts|..6 + 2 * |ss.durationCounts| + |bs|]
         == BucketLines(m, bs, ss.buckets)
    ensures DurationBlock(m, labelName, ss, bs, fixed3)[6 + 2 * |ss.durationCounts| + |bs|] == BucketLine(m, "+Inf", count)
    ensures DurationBlock(m, labelName, ss, bs, fixed3)[8 + 2 * |ss.durationCounts| + |bs|] == TotalCountLine(m, count)
  {
    var vs := SortedKeys(ss.durationCounts.Keys);
    assert |vs| == |ss.durationCounts.Keys| == |ss.durationCounts|;
    var head := SummaryHead(m);
    var summary := SummaryLines(m, labelName, vs, ss.durationCounts, ss.durationSums, fixed3);
    var mid := HistogramHead(m);
    var bucketLines := BucketLines(m, bs, ss.buckets);
    var tail := HistogramTail(m, count, RealSum(vs, ss.durationSums), fixed3);
    SummaryLinesLength(m, labelName, vs, ss.durationCounts, ss.durationSums, fixed3);
    BucketLinesLength(m, bs, ss.buckets);
    var lines := head + summary + mid + bucketLines + tail;
    assert DurationBlock(m, labelName, ss, bs, fixed3) == lines;
    var start := |head| + |summary| + |mid|;
    assert lines[start..start + |bucketLines|] == bucketLines;
    assert lines[start + |bucketLines|] == tail[0];
    assert lines[start + |bucketLines| + 2] == tail[2];
  }

  // ----- worked examples -----

  /** Two observations of `/a`, 0.3 s and 2 s, against bounds 0.1, 0.5 and 1:
      two observations summing to 2.3 s, nothing in the 0.1 bucket, one each in
      the 0.5 and 1 buckets, and a total (the `+Inf` bucket) of two. */
  lemma ObserveExample()
    ensures var bs := [Bound("0.1", 0.1), Bound("0.5", 0.5), Bound("1", 1.0)];
      var ss := ObserveSet(ObserveSet(Empty, "/a", 0.3, bs), "/a", 2.0, bs);
      ss.durationCounts == map["/a" := 2] && ss.durationSums == map["/a" := 2.3]
      && Get(ss.buckets, "0.1", 0) == 0 && Get(ss.buckets, "0.5", 0) == 1 && Get(ss.buckets, "1", 0) == 1
      && Total(ss.durationCounts) == 2
  {
    var bs := [Bound("0.1", 0.1), Bound("0.5", 0.5), Bound("1", 1.0)];
    assert bs[..2] == [Bound("0.1", 0.1), Bound("0.5", 0.5)] && bs[..2][..1] == [Bound("0.1", 0.1)];
    var b1 := Bumped(bs, map[], 0.3);
    assert b1 == Bumped([Bound("0.1", 0.1)], map["1" := 1]["0.5" := 1], 0.3);
    assert b1 == map["1" := 1]["0.5" := 1];
    BumpedNone(bs, b1, 2.0);
    var m: map<string, u64> := map["/a" := 2];
    SumOverRemove(m, m.Keys, "/a");
    assert m.Keys - {"/a"} == {};
  }

  lemma HitsCounterBlock()
    ensures CounterBlock("hits", "code", IncSet(Empty, "200", 5).counters)
         == [TypeLine("hits", "counter"), HelpLine("hits", "counter", "hits"), CounterLine("hits", "code", "200", 5)]
  {
    var counters := IncSet(Empty, "200", 5).counters;
    assert counters == map["200" := 5];
    SortedKeysSingleton("200");
    assert counters.Keys == {"200"};
    assert SortedKeys(counters.Keys) == ["200"];
    assert ["200"][..0] == [];
    assert Get(counters, "200", 0) == 5;
    assert CounterLines("hits", "code", ["200"], counters) == [CounterLine("hits", "code", "200", 5)];
  }

  /** `Inc("hits", "code", "200", 5)` on an empty registry is exposed as the
      counter header, the line `hits_total{code="200"} 5` and `# EOF`. */
  lemma CounterExample(bs: seq<Bucket>, fixed3: real -> string)
    ensures '|' in Key("hits", "code")
    ensures Render(map[Key("hits", "code") := IncSet(Empty, "200", 5)], bs, fixed3)
         == [TypeLine("hits", "counter"), HelpLine("hits", "counter", "hits"), "hits_total{code=\"200\"} 5\n", "# EOF\n"]
  {
    var key := Key("hits", "code");
    var ss := IncSet(Empty, "200", 5);
    var names := map[key := ss];
    SplitKeyOfKey("hits", "code");
    HitsCounterBlock();
    HitsCounterLine();
    assert |ss.counters| > 0 && ss.durationCounts == map[];
    assert EntryLines(key, ss, bs, fixed3) == CounterBlock("hits", "code", ss.counters);
    SortedKeysSingleton(key);
    assert names.Keys == {key};
    assert [key][..0] == [];
    assert EntriesLines([key], names, bs, fixed3) == EntryLines(key, ss, bs, fixed3);
  }

  /** The registry of metrics/metrics.go. Each method is one step under the
      registry's mutex. */
  class Metrics {
    var names: map<string, MetricSet>
    var buckets: seq<Bucket>

    /** Bounds stay ascending, and every key holds the `|` that separates the
        metric name from the label name. */
    ghost predicate Valid()
      reads this
    {
      ByValue(buckets) && forall k :: k in names ==> '|' in k
    }

    /** `NewWithBuckets`: an empty registry whose bounds are the given values in
        ascending order, one bound per value, each named by `formatG` (Go's
        `%g`); there is no `+Inf` bound. */
    constructor NewWithBuckets(values: seq<real>, formatG: real -> string)
      ensures Valid() && names == map[]
      ensures |buckets| == |values| && multiset(Values(buckets)) == multiset(values)
      ensures Values(buckets) == SortReals(values)
      ensures forall i :: 0 <= i < |buckets| ==> buckets[i].name == formatG(buckets[i].value)
    {
      var bs := MakeBounds(values, formatG);
      names := map[];
      buckets := bs;
    }

    /** `Inc`: creates the entry for `name|labelName` when it is missing and adds
        `delta` (modulo 2^64) to the counter of `labelValue`; every other key,
        every other label value and the three other maps stay as they were. */
    method Inc(name: string, labelName: string, labelValue: string, delta: u64)
      requires Valid()
      modifies this
      ensures Valid() && buckets == old(buckets)
      ensures names == old(names)[Key(name, labelName) := IncSet(Lookup(old(names), Key(name, labelName)), labelValue, delta)]
      ensures Get(names[Key(name, labelName)].counters, labelValue, 0) as int
           == (Get(Lookup(old(names), Key(name, labelName)).counters, labelValue, 0) as int + delta as int) % TWO_TO_THE_64
    {
      var key := Key(name, labelName);
      assert key[|name|] == '|';
      var ss := Empty;
      if key in names {
        ss := names[key];
      } else {
        names := names[key := ss];
      }
      ss := ss.(counters := ss.counters[labelValue := Add64(Get(ss.counters, labelValue, 0), delta)]);
      names := names[key := ss];
    }

    /** `Add`: creates the entry when it is missing, counts one observation of
        `labelValue`, adds `duration` to its sum and counts the observation in
        the bucket of every bound at or above it. */
    method Add(name: string, labelName: string, labelValue: string, duration: real)
      requires Valid()
      modifies this
      ensures Valid() && buckets == old(buckets)
      ensures names == old(names)[Key(name, labelName) := ObserveSet(Lookup(old(names), Key(name, labelName)), labelValue, duration, buckets)]
    {
      var key := Key(name, labelName);
      assert key[|name|] == '|';
      var ss := Empty;
      if key in names {
        ss := names[key];
      } else {
        names := names[key := ss];
      }
      var counts := Bump(ss.durationCounts, labelValue);
      var sums := ss.durationSums[labelValue := Get(ss.durationSums, labelValue, 0.0) + duration];
      var bucketCounts := Observe(buckets, ss.buckets, duration);
      names := names[key := MetricSet(ss.counters, counts, sums, bucketCounts)];
    }

    /** `Write`: the lines of the exposition, keys in ascending order, ending in
        `# EOF`. */
    method Write(fixed3: real -> string) returns (out: seq<string>)
      requires Valid()
      ensures out == Render(names, buckets, fixed3)
    {
      var keys := SortedKeysOf(names.Keys);
      assert SplittableKeys(keys, names);
      out := [];
      for i := 0 to |keys|
        invariant out == EntriesLines(keys[..i], names, buckets, fixed3)
      {
        var lines := WriteEntry(keys[i], names[keys[i]], buckets, fixed3);
        EntriesLinesSnoc(keys, i, names, buckets, fixed3);
        out := out + lines;
      }
      assert keys[..|keys|] == keys;
      out := out + ["# EOF\n"];
    }

    /** `AddMetrics`: every key of `other` missing here is adopted, every key
        present in both is added entrywise, every key only here stays. */
    method AddMetrics(other: Metrics)
      requires Valid() && other.Valid()
      modifies this
      ensures Valid() && buckets == old(buckets)
      ensures names == MergeNames(old(names), old(other.names))
    {
      var source := other.names;
      var todo := source.Keys;
      while todo != {}
        invariant todo <= source.Keys
        invariant source == old(other.names)
        invariant forall k :: k in source ==> '|' in k
        invariant buckets == old(buckets)
        invariant forall k :: k in names ==> '|' in k
        invariant names.Keys == old(names).Keys + (source.Keys - todo)
        invariant forall k :: k in names ==> names[k] == Merged(old(names), source, todo, k)
        decreases todo
      {
        var key :| key in todo;
        var value := source[key];
        var ss := value;
        if key in names {
          ss := MergeEntry(names[key], value);
        }
        MergeStep(old(names), source, todo, names, key, ss);
        names := names[key := ss];
        todo := todo - {key};
      }
      MergedAll(old(names), source, names);
    }
  }

  /** `New`: a registry on the default bounds. */
  method New(formatG: real -> string) returns (r: Metrics)
    ensures fresh(r) && r.Valid() && r.names == map[]
    ensures Values(r.buckets) == SortReals(DefaultBuckets)
    ensures forall i :: 0 <= i < |r.buckets| ==> r.buckets[i].name == formatG(r.buckets[i].value)
  {
    r := new Metrics.NewWithBuckets(DefaultBuckets, formatG);
  }
}
