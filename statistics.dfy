/** The older registry of statistics/statistics.go: per (metric name, tag name)
    a count and a sum of observations per tag value, and cumulative bucket
    counts against boundaries that end in an explicit `+Inf` sentinel. */
module Statistics {
  import opened Text
  import opened Counts
  import opened Histogram
  import opened Exposition

  type Boundary = Bound

  /** The per-key accumulator: `counters` and `durations` are keyed by tag
      value, `buckets` by boundary name (so it adds up every tag value). */
  datatype StatisticSet = StatisticSet(
    counters: map<string, u64>,
    durations: map<string, real>,
    buckets: map<string, u64>)

  /** The entry created on first use of a key. */
  const Fresh := StatisticSet(map[], map[], map[])

  /** Go's `math.MaxFloat64`, (2 - 2^-52) * 2^1023, written out exactly. */
  const MaxFloat64: real := 179769313486231570814527423731704356798070567525844996598917476803157260780028538760589558632766878171540458953514382464234321326889464182768467546703537516986049910576551282076245490090389328944075868508455133942304583236903222948165808559332123348274797826204144723168738177180919299881250404026184124858368.0

  /** The boundary `New` appends after the given ones. */
  const Sentinel := Bound("+Inf", MaxFloat64)

  /** The entry under `key`, or the one that would be created for it. */
  function Lookup(names: map<string, StatisticSet>, key: string): StatisticSet
  {
    if key in names then names[key] else Fresh
  }

  // ----- Add -----

  /** `Add` on one entry: one more observation of `tagValue`, `d` more on its
      sum, and the observation counted in every bucket at or above `d`. */
  function AddSet(ss: StatisticSet, tagValue: string, d: real, bs: seq<Boundary>): (r: StatisticSet)
    ensures Get(r.counters, tagValue, 0) as int == (Get(ss.counters, tagValue, 0) as int + 1) % TWO_TO_THE_64
    ensures r.counters - {tagValue} == ss.counters - {tagValue}
    ensures Get(r.durations, tagValue, 0.0) == Get(ss.durations, tagValue, 0.0) + d
    ensures r.durations - {tagValue} == ss.durations - {tagValue}
    ensures ss.buckets.Keys <= r.buckets.Keys
  {
    StatisticSet(
      Bump(ss.counters, tagValue),
      ss.durations[tagValue := Get(ss.durations, tagValue, 0.0) + d],
      Bumped(bs, ss.buckets, d))
  }

  /** `Add` called once per duration on one tag value. */
  function AddAll(ss: StatisticSet, tagValue: string, ds: seq<real>, bs: seq<Boundary>): StatisticSet
  {
    if ds == [] then ss
    else AddSet(AddAll(ss, tagValue, ds[..|ds| - 1], bs), tagValue, ds[|ds| - 1], bs)
  }

  /** A run of `Add` calls on one tag value bumps its counter once per call (so
      `n` calls are `Bumps` by `n`, modulo 2^64) and adds every duration to its
      sum; every other tag value stays. */
  lemma {:induction false} AddAllCounts(ss: StatisticSet, tagValue: string, ds: seq<real>, bs: seq<Boundary>)
    ensures Get(AddAll(ss, tagValue, ds, bs).counters, tagValue, 0) == Bumps(Get(ss.counters, tagValue, 0), |ds|)
    ensures Get(AddAll(ss, tagValue, ds, bs).durations, tagValue, 0.0) == Get(ss.durations, tagValue, 0.0) + SumOfReals(ds)
    ensures AddAll(ss, tagValue, ds, bs).counters - {tagValue} == ss.counters - {tagValue}
    ensures AddAll(ss, tagValue, ds, bs).durations - {tagValue} == ss.durations - {tagValue}
    decreases |ds|
  {
    if ds != [] {
      var init := ds[..|ds| - 1];
      AddAllCounts(ss, tagValue, init, bs);
      var before := AddAll(ss, tagValue, init, bs);
      assert AddAll(ss, tagValue, ds, bs).counters - {tagValue} == before.counters - {tagValue};
      assert AddAll(ss, tagValue, ds, bs).durations - {tagValue} == before.durations - {tagValue};
    }
  }

  /** One observation adds exactly one to the count of its tag value and `d` to
      its sum, leaves every other tag value alone, and adds one to the bucket
      of every boundary at or above `d`, leaving every other bucket as it was. */
  lemma AddSetEffect(ss: StatisticSet, tagValue: string, d: real, bs: seq<Boundary>, name: string)
    requires DistinctNames(bs)
    ensures Get(AddSet(ss, tagValue, d, bs).counters, tagValue, 0) == Add64(Get(ss.counters, tagValue, 0), 1)
    ensures AddSet(ss, tagValue, d, bs).counters - {tagValue} == ss.counters - {tagValue}
    ensures Get(AddSet(ss, tagValue, d, bs).durations, tagValue, 0.0) == Get(ss.durations, tagValue, 0.0) + d
    ensures AddSet(ss, tagValue, d, bs).durations - {tagValue} == ss.durations - {tagValue}
    ensures Get(AddSet(ss, tagValue, d, bs).buckets, name, 0)
         == if exists i :: 0 <= i < |bs| && bs[i].name == name && d <= bs[i].value
            then Add64(Get(ss.buckets, name, 0), 1)
            else Get(ss.buckets, name, 0)
  {
    BumpedCell(bs, ss.buckets, d, name);
    if i :| 0 <= i < |bs| && bs[i].name == name && d <= bs[i].value {
      HitsDistinct(bs, i, d);
    } else {
      HitsNone(bs, name, d);
    }
  }

  /** Boundaries as `New` leaves them: ascending, ending in the sentinel. */
  ghost predicate SentinelLast(bs: seq<Boundary>)
  {
    ByValue(bs) && |bs| > 0 && bs[|bs| - 1] == Sentinel
  }

  /** The histogram invariant of an entry: bucket counts never decrease along
      the boundaries, and the `+Inf` bucket counts every observation of every
      tag value. */
  ghost predicate SentinelInvariant(ss: StatisticSet, bs: seq<Boundary>)
  {
    Cumulative(bs, ss.buckets) && Get(ss.buckets, "+Inf", 0) as int == Total(ss.counters)
  }

  /** The invariant bounds every bucket by the number of observations. */
  lemma SentinelBoundsAll(ss: StatisticSet, bs: seq<Boundary>)
    requires SentinelLast(bs) && SentinelInvariant(ss, bs)
    ensures AtMost(bs, ss.buckets, Total(ss.counters))
  {
    forall i | 0 <= i < |bs| ensures Get(ss.buckets, bs[i].name, 0) as int <= Total(ss.counters) {
      assert Get(ss.buckets, bs[i].name, 0) <= Get(ss.buckets, bs[|bs| - 1].name, 0);
    }
  }

  /** `Add` keeps the invariant for every duration up to the sentinel, as long
      as the number of observations stays below 2^64 and the boundary names are
      distinct. */
  lemma AddKeepsInvariant(ss: StatisticSet, tagValue: string, d: real, bs: seq<Boundary>)
    requires SentinelLast(bs) && DistinctNames(bs)
    requires SentinelInvariant(ss, bs)
    requires d <= MaxFloat64
    requires Total(ss.counters) + 1 < TWO_TO_THE_64
    ensures SentinelInvariant(AddSet(ss, tagValue, d, bs), bs)
    ensures Total(AddSet(ss, tagValue, d, bs).counters) == Total(ss.counters) + 1
  {
    var total := Total(ss.counters);
    SentinelBoundsAll(ss, bs);
    BumpedKeepsCumulative(bs, ss.buckets, d, total);
    BumpedCell(bs, ss.buckets, d, "+Inf");
    HitsDistinct(bs, |bs| - 1, d);
    ValueAtMostTotal(ss.counters, tagValue);
    TotalUpdate(ss.counters, tagValue, Add64(Get(ss.counters, tagValue, 0), 1));
  }

  /** A freshly created entry satisfies the invariant. */
  lemma FreshInvariant(bs: seq<Boundary>)
    ensures SentinelInvariant(Fresh, bs)
  {
    assert Total(Fresh.counters) == SumOver(map[], {});
  }

  // ----- Write -----

  /** The two header lines of the summary block: HELP before TYPE, no UNIT. */
  function SummaryHead(m: string): seq<string>
  {
    [HelpLine(m + "_seconds", "summary", m), TypeLine(m + "_seconds", "summary")]
  }

  /** The two header lines of the histogram block. */
  function HistogramHead(m: string): seq<string>
  {
    [HelpLine(m + "_total_seconds", "histogram", m), TypeLine(m + "_total_seconds", "histogram")]
  }

  /** The sum and count lines that close the histogram block. */
  function Totals(m: string, sum: real, count: u64, fixed3: real -> string): seq<string>
  {
    [TotalSumLine(m, sum, fixed3), TotalCountLine(m, count)]
  }

  /** Everything written for one key, before its end marker: both blocks, with
      tag values ascending and one bucket line per stored boundary (the
      sentinel included); the count shows the number of observations of every
      tag value, modulo 2^64. */
  ghost function EntryLines(key: string, ss: StatisticSet, bs: seq<Boundary>, fixed3: real -> string): seq<string>
    requires '|' in key
  {
    var (m, tagName) := SplitKey(key);
    var vs := SortedKeys(ss.counters.Keys);
    SummaryHead(m)
      + SummaryLines(m, tagName, vs, ss.counters, ss.durations, fixed3)
      + HistogramHead(m)
      + BucketLines(m, bs, ss.buckets)
      + Totals(m, RealSum(vs, ss.durations), (Total(ss.counters) % TWO_TO_THE_64) as u64, fixed3)
  }

  ghost predicate SplittableKeys(keys: seq<string>, names: map<string, StatisticSet>)
  {
    forall i :: 0 <= i < |keys| ==> keys[i] in names && '|' in keys[i]
  }

  /** The entries of `keys` in that order, each followed by `trailer`. */
  ghost function Blocks(keys: seq<string>, names: map<string, StatisticSet>, bs: seq<Boundary>,
                        fixed3: real -> string, trailer: seq<string>): seq<string>
    requires SplittableKeys(keys, names)
  {
    if keys == [] then []
    else
      var last := keys[|keys| - 1];
      Blocks(keys[..|keys| - 1], names, bs, fixed3, trailer) + EntryLines(last, names[last], bs, fixed3) + trailer
  }

  lemma BlocksSnoc(keys: seq<string>, i: nat, names: map<string, StatisticSet>, bs: seq<Boundary>,
                   fixed3: real -> string, trailer: seq<string>)
    requires SplittableKeys(keys, names) && i < |keys|
    ensures SplittableKeys(keys[..i], names) && SplittableKeys(keys[..i + 1], names)
    ensures Blocks(keys[..i + 1], names, bs, fixed3, trailer)
         == Blocks(keys[..i], names, bs, fixed3, trailer) + EntryLines(keys[i], names[keys[i]], bs, fixed3) + trailer
  {
    assert keys[..i + 1][..i] == keys[..i];
  }

  /** The end marker as statistics/statistics.go writes it: no newline. */
  const Eof := "# EOF"

  /** The output of `Write` as written: every entry in ascending key order,
      each followed by `# EOF`. */
  ghost function Render(names: map<string, StatisticSet>, bs: seq<Boundary>, fixed3: real -> string): seq<string>
    requires forall k :: k in names ==> '|' in k
  {
    Blocks(SortedKeys(names.Keys), names, bs, fixed3, [Eof])
  }

  /** The output as intended, and as metrics/metrics.go writes it: the entries,
      then one `# EOF` line at the very end. */
  ghost function CorrectedRender(names: map<string, StatisticSet>, bs: seq<Boundary>, fixed3: real -> string): seq<string>
    requires forall k :: k in names ==> '|' in k
  {
    Blocks(SortedKeys(names.Keys), names, bs, fixed3, []) + ["# EOF\n"]
  }

  /** The lines `Write` produces for one key. */
  method WriteEntry(key: string, ss: StatisticSet, bs: seq<Boundary>, fixed3: real -> string) returns (lines: seq<string>)
    requires '|' in key
    ensures lines == EntryLines(key, ss, bs, fixed3)
  {
    var (m, tagName) := SplitKey(key);
    var vs := SortedKeysOf(ss.counters.Keys);
    var summary, count, sum := WriteSummary(m, tagName, vs, ss.counters, ss.durations, fixed3);
    AscendingDistinct(vs);
    SeqSumIsTotal(vs, ss.counters);
    lines := SummaryHead(m) + summary;
    lines := lines + HistogramHead(m);
    var bucketLines := WriteBuckets(m, bs, ss.buckets);
    lines := lines + bucketLines;
    lines := lines + Totals(m, sum, count, fixed3);
  }

  /** The key loop of `Write`: each entry of `keys`, followed by `trailer`. */
  method WriteBlocks(keys: seq<string>, names: map<string, StatisticSet>, bs: seq<Boundary>,
                     fixed3: real -> string, trailer: seq<string>) returns (out: seq<string>)
    requires SplittableKeys(keys, names)
    ensures out == Blocks(keys, names, bs, fixed3, trailer)
  {
    out := [];
    for i := 0 to |keys|
      invariant out == Blocks(keys[..i], names, bs, fixed3, trailer)
    {
      var lines := WriteEntry(keys[i], names[keys[i]], bs, fixed3);
      BlocksSnoc(keys, i, names, bs, fixed3, trailer);
      out := out + lines + trailer;
    }
    assert keys[..|keys|] == keys;
  }

  // ----- properties of the exposition -----

  lemma EntryLinesLong(key: string, ss: StatisticSet, bs: seq<Boundary>, fixed3: real -> string)
    requires '|' in key
    ensures AllLong(EntryLines(key, ss, bs, fixed3))
  {
    var (m, tagName) := SplitKey(key);
    var vs := SortedKeys(ss.counters.Keys);
    var count := (Total(ss.counters) % TWO_TO_THE_64) as u64;
    SummaryLinesLong(m, tagName, vs, ss.counters, ss.durations, fixed3);
    BucketLinesLong(m, bs, ss.buckets);
    var a, b := SummaryHead(m), SummaryLines(m, tagName, vs, ss.counters, ss.durations, fixed3);
    var c, d := HistogramHead(m), BucketLines(m, bs, ss.buckets);
    var e := Totals(m, RealSum(vs, ss.durations), count, fixed3);
    HeadsLong(m, RealSum(vs, ss.durations), count, fixed3);
    AllLongConcat(a, b);
    AllLongConcat(a + b, c);
    AllLongConcat(a + b + c, d);
    AllLongConcat(a + b + c + d, e);
  }

  lemma HeadsLong(m: string, sum: real, count: u64, fixed3: real -> string)
    ensures AllLong(SummaryHead(m)) && AllLong(HistogramHead(m)) && AllLong(Totals(m, sum, count, fixed3))
  {
  }

  /** No line of an entry is an end marker, with or without its newline. */
  lemma EntryHasNoEof(key: string, ss: StatisticSet, bs: seq<Boundary>, fixed3: real -> string)
    requires '|' in key
    ensures multiset(EntryLines(key, ss, bs, fixed3))[Eof] == 0
    ensures multiset(EntryLines(key, ss, bs, fixed3))["# EOF\n"] == 0
  {
    var lines := EntryLines(key, ss, bs, fixed3);
    EntryLinesLong(key, ss, bs, fixed3);
    forall i | 0 <= i < |lines| ensures lines[i] != Eof && lines[i] != "# EOF\n" {
      assert |lines[i]| > 6;
    }
  }

  /** As written, the marker appears once per entry: as many times as there
      are keys. */
  lemma {:induction false} BlocksEofCount(keys: seq<string>, names: map<string, StatisticSet>, bs: seq<Boundary>, fixed3: real -> string)
    requires SplittableKeys(keys, names)
    ensures multiset(Blocks(keys, names, bs, fixed3, [Eof]))[Eof] == |keys|
    decreases |keys|
  {
    if keys != [] {
      var last := keys[|keys| - 1];
      BlocksEofCount(keys[..|keys| - 1], names, bs, fixed3);
      EntryHasNoEof(last, names[last], bs, fixed3);
    }
  }

  /** Without a trailer every line belongs to an entry, so none is short. */
  lemma {:induction false} BlocksLong(keys: seq<string>, names: map<string, StatisticSet>, bs: seq<Boundary>, fixed3: real -> string)
    requires SplittableKeys(keys, names)
    ensures AllLong(Blocks(keys, names, bs, fixed3, []))
    decreases |keys|
  {
    if keys != [] {
      var last := keys[|keys| - 1];
      BlocksLong(keys[..|keys| - 1], names, bs, fixed3);
      EntryLinesLong(last, names[last], bs, fixed3);
      AllLongConcat(Blocks(keys[..|keys| - 1], names, bs, fixed3, []), EntryLines(last, names[last], bs, fixed3));
      assert Blocks(keys, names, bs, fixed3, [])
          == Blocks(keys[..|keys| - 1], names, bs, fixed3, []) + EntryLines(last, names[last], bs, fixed3);
    }
  }

  /** With two keys or more, the first entry's marker is not the last line. */
  lemma EofBeforeLast(keys: seq<string>, names: map<string, StatisticSet>, bs: seq<Boundary>, fixed3: real -> string)
    requires SplittableKeys(keys, names) && |keys| >= 2
    ensures exists i :: 0 <= i < |Blocks(keys, names, bs, fixed3, [Eof])| - 1 && Blocks(keys, names, bs, fixed3, [Eof])[i] == Eof
  {
    var init := keys[..|keys| - 1];
    var last := keys[|keys| - 1];
    var front := Blocks(init, names, bs, fixed3, [Eof]);
    var back := EntryLines(last, names[last], bs, fixed3) + [Eof];
    assert front[|front| - 1] == Eof;
    assert Blocks(keys, names, bs, fixed3, [Eof]) == front + back;
    assert (front + back)[|front| - 1] == Eof;
  }

  /** `Write` as written emits `# EOF` (without a newline) once per key: never
      for an empty registry, and, with two keys or more, somewhere before the
      last line, so the next entry's first line follows it on the same line. */
  lemma RenderEofPerEntry(names: map<string, StatisticSet>, bs: seq<Boundary>, fixed3: real -> string)
    requires forall k :: k in names ==> '|' in k
    ensures multiset(Render(names, bs, fixed3))[Eof] == |names|
    ensures multiset(Render(names, bs, fixed3))["# EOF\n"] == 0
    ensures |names| >= 2 ==> exists i :: 0 <= i < |Render(names, bs, fixed3)| - 1 && Render(names, bs, fixed3)[i] == Eof
  {
    var keys := SortedKeys(names.Keys);
    assert |keys| == |names.Keys| == |names|;
    assert SplittableKeys(keys, names);
    assert Render(names, bs, fixed3) == Blocks(keys, names, bs, fixed3, [Eof]);
    BlocksEofCount(keys, names, bs, fixed3);
    RenderNoNewlineEof(keys, names, bs, fixed3);
    if |keys| >= 2 {
      EofBeforeLast(keys, names, bs, fixed3);
    }
  }

  lemma {:induction false} RenderNoNewlineEof(keys: seq<string>, names: map<string, StatisticSet>, bs: seq<Boundary>, fixed3: real -> string)
    requires SplittableKeys(keys, names)
    ensures multiset(Blocks(keys, names, bs, fixed3, [Eof]))["# EOF\n"] == 0
    decreases |keys|
  {
    if keys != [] {
      var last := keys[|keys| - 1];
      RenderNoNewlineEof(keys[..|keys| - 1], names, bs, fixed3);
      EntryHasNoEof(last, names[last], bs, fixed3);
    }
  }

  /** The corrected output ends with `# EOF` and a newline, and no earlier
      line is an end marker, whatever the registry holds (an empty one
      included). */
  lemma CorrectedRenderEndsWithEof(names: map<string, StatisticSet>, bs: seq<Boundary>, fixed3: real -> string)
    requires forall k :: k in names ==> '|' in k
    ensures CorrectedRender(names, bs, fixed3)[|CorrectedRender(names, bs, fixed3)| - 1] == "# EOF\n"
    ensures forall i :: 0 <= i < |CorrectedRender(names, bs, fixed3)| - 1 ==>
      CorrectedRender(names, bs, fixed3)[i] != "# EOF\n" && CorrectedRender(names, bs, fixed3)[i] != Eof
  {
    var keys := SortedKeys(names.Keys);
    assert SplittableKeys(keys, names);
    var entries := Blocks(keys, names, bs, fixed3, []);
    assert CorrectedRender(names, bs, fixed3) == entries + ["# EOF\n"];
    BlocksLong(keys, names, bs, fixed3);
    forall i | 0 <= i < |entries| ensures entries[i] != "# EOF\n" && entries[i] != Eof {
      assert |entries[i]| > 6;
    }
  }

  /** The layout of one entry: two header lines, two lines per tag value, two
      more header lines, one bucket line per stored boundary in stored order,
      then the sum and the count line, which shows `count`, the number of
      observations of every tag value modulo 2^64. */
  lemma EntryLayout(key: string, ss: StatisticSet, bs: seq<Boundary>, fixed3: real -> string, count: u64)
    requires '|' in key && count as int == Total(ss.counters) % TWO_TO_THE_64
    ensures |EntryLines(key, ss, bs, fixed3)| == 6 + 2 * |ss.counters| + |bs|
    ensures EntryLines(key, ss, bs, fixed3)[4 + 2 * |ss.counters|..4 + 2 * |ss.counters| + |bs|]
         == BucketLines(SplitKey(key).0, bs, ss.buckets)
    ensures EntryLines(key, ss, bs, fixed3)[5 + 2 * |ss.counters| + |bs|] == TotalCountLine(SplitKey(key).0, count)
  {
    var (m, tagName) := SplitKey(key);
    var vs := SortedKeys(ss.counters.Keys);
    assert |vs| == |ss.counters.Keys| == |ss.counters|;
    var head := SummaryHead(m);
    var summary := SummaryLines(m, tagName, vs, ss.counters, ss.durations, fixed3);
    var mid := HistogramHead(m);
    var bucketLines := BucketLines(m, bs, ss.buckets);
    var tail := Totals(m, RealSum(vs, ss.durations), count, fixed3);
    SummaryLinesLength(m, tagName, vs, ss.counters, ss.durations, fixed3);
    BucketLinesLength(m, bs, ss.buckets);
    var lines := head + summary + mid + bucketLines + tail;
    assert EntryLines(key, ss, bs, fixed3) == lines;
    var start := |head| + |summary| + |mid|;
    assert lines[start..start + |bucketLines|] == bucketLines;
    assert lines[start + |bucketLines| + 1] == tail[1];
  }

  /** On sentinel-ended boundaries the last bucket line of an entry is the
      `+Inf` one, and under the invariant it shows the same number as the count
      line: every observation of every tag value. */
  lemma EntryTotals(key: string, ss: StatisticSet, bs: seq<Boundary>, fixed3: real -> string)
    requires '|' in key
    requires SentinelLast(bs) && SentinelInvariant(ss, bs) && Total(ss.counters) < TWO_TO_THE_64
    ensures |EntryLines(key, ss, bs, fixed3)| == 6 + 2 * |ss.counters| + |bs|
    ensures EntryLines(key, ss, bs, fixed3)[3 + 2 * |ss.counters| + |bs|]
         == BucketLine(SplitKey(key).0, "+Inf", Total(ss.counters) as u64)
    ensures EntryLines(key, ss, bs, fixed3)[5 + 2 * |ss.counters| + |bs|]
         == TotalCountLine(SplitKey(key).0, Total(ss.counters) as u64)
  {
    var m := SplitKey(key).0;
    var count := Total(ss.counters) as u64;
    EntryLayout(key, ss, bs, fixed3, count);
    BucketLinesAt(m, bs, ss.buckets);
    var lines := EntryLines(key, ss, bs, fixed3);
    var start := 4 + 2 * |ss.counters|;
    assert lines[start + |bs| - 1] == lines[start..start + |bs|][|bs| - 1];
  }

  /** Observations of 0.5 s and 2 s against the boundaries 1 and `+Inf`: two
      observations, one of them in the 1 bucket, both in the `+Inf` bucket,
      although 2 s lies above every given boundary. */
  lemma SentinelExample()
    ensures var bs := [Bound("1", 1.0), Sentinel];
      var ss := AddSet(AddSet(Fresh, "/a", 0.5, bs), "/a", 2.0, bs);
      ss.counters == map["/a" := 2] && Get(ss.buckets, "1", 0) == 1 && Get(ss.buckets, "+Inf", 0) == 2
  {
    var bs := [Bound("1", 1.0), Sentinel];
    assert bs[..1] == [Bound("1", 1.0)];
    var b1 := Bumped(bs, map[], 0.5);
    assert b1 == Bumped([Bound("1", 1.0)], map["+Inf" := 1], 0.5);
    assert b1 == map["+Inf" := 1]["1" := 1];
    assert Bumped(bs, b1, 2.0) == Bumped([Bound("1", 1.0)], b1["+Inf" := 2], 2.0);
  }

  /** The registry of statistics/statistics.go. Each method is one step under
      the registry's mutex. */
  class Statistics {
    var names: map<string, StatisticSet>
    var boundaries: seq<Boundary>

    /** Boundaries stay ascending and end in the sentinel, and every key holds
        the `|` that separates the metric name from the tag name. */
    ghost predicate Valid()
      reads this
    {
      SentinelLast(boundaries) && forall k :: k in names ==> '|' in k
    }

    /** `New`: an empty registry whose boundaries are the given values in
        ascending order, each named by `formatG` (Go's `%g`), followed by
        exactly one `+Inf` sentinel at `math.MaxFloat64`. */
    constructor New(values: seq<real>, formatG: real -> string)
      requires forall i :: 0 <= i < |values| ==> values[i] <= MaxFloat64
      ensures Valid() && names == map[]
      ensures |boundaries| == |values| + 1 && boundaries[|values|] == Sentinel
      ensures Values(boundaries[..|values|]) == SortReals(values)
      ensures multiset(Values(boundaries[..|values|])) == multiset(values)
      ensures forall i :: 0 <= i < |values| ==> boundaries[i].name == formatG(boundaries[i].value)
    {
      var bs := MakeBounds(values, formatG);
      SentinelAbove(bs, values);
      names := map[];
      assert (bs + [Sentinel])[..|values|] == bs;
      boundaries := bs + [Sentinel];
    }

    /** `Add`: creates the entry for `name|tagName` when it is missing, counts
        one observation of `tagValue`, adds `duration` to its sum and counts the
        observation in the bucket of every boundary at or above it. */
    method Add(name: string, tagName: string, tagValue: string, duration: real)
      requires Valid()
      modifies this
      ensures Valid() && boundaries == old(boundaries)
      ensures names == old(names)[Key(name, tagName) := AddSet(Lookup(old(names), Key(name, tagName)), tagValue, duration, boundaries)]
    {
      var key := Key(name, tagName);
      assert key[|name|] == '|';
      var ss := Fresh;
      if key in names {
        ss := names[key];
      } else {
        names := names[key := ss];
      }
      var counters := Bump(ss.counters, tagValue);
      var durations := ss.durations[tagValue := Get(ss.durations, tagValue, 0.0) + duration];
      var buckets := Observe(boundaries, ss.buckets, duration);
      names := names[key := StatisticSet(counters, durations, buckets)];
    }

    /** `Write` as written: the entries in ascending key order, each followed
        by `# EOF` without a newline. */
    method Write(fixed3: real -> string) returns (out: seq<string>)
      requires Valid()
      ensures out == Render(names, boundaries, fixed3)
    {
      var keys := SortedKeysOf(names.Keys);
      assert SplittableKeys(keys, names);
      out := WriteBlocks(keys, names, boundaries, fixed3, [Eof]);
    }

    /** `Write` with the end marker written once, last, with its newline. */
    method WriteCorrected(fixed3: real -> string) returns (out: seq<string>)
      requires Valid()
      ensures out == CorrectedRender(names, boundaries, fixed3)
    {
      var keys := SortedKeysOf(names.Keys);
      assert SplittableKeys(keys, names);
      out := WriteBlocks(keys, names, boundaries, fixed3, []);
      out := out + ["# EOF\n"];
    }
  }

  /** Sorted values all at most `math.MaxFloat64` stay ascending with the
      sentinel appended. */
  lemma SentinelAbove(bs: seq<Boundary>, values: seq<real>)
    requires ByValue(bs) && multiset(Values(bs)) == multiset(values)
    requires forall i :: 0 <= i < |values| ==> values[i] <= MaxFloat64
    ensures SentinelLast(bs + [Sentinel])
  {
    var r := bs + [Sentinel];
    forall i, j | 0 <= i < j < |r| ensures r[i].value <= r[j].value {
      if j == |bs| {
        assert Values(bs)[i] in multiset(values);
      }
    }
  }
}
