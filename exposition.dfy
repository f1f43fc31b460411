/** The text lines both registries write for a metric: header lines, the
    per-label-value summary lines, the histogram bucket lines and the totals.
    Each line is the exact text handed to one `Write` call, newline included. */
module Exposition {
  import opened Text
  import opened Counts
  import opened Histogram

  /** `# TYPE <family> <kind>` */
  function TypeLine(family: string, kind: string): string
  {
    "# TYPE " + family + " " + kind + "\n"
  }

  /** `# UNIT <family> seconds` */
  function UnitLine(family: string): string
  {
    "# UNIT " + family + " seconds\n"
  }

  /** `# HELP <family> A <kind> of the <metric name with spaces>.` */
  function HelpLine(family: string, kind: string, metricName: string): string
  {
    "# HELP " + family + " A " + kind + " of the " + Spaced(metricName) + ".\n"
  }

  /** `<m>_total{<label>=<quoted value>} <count>` */
  function CounterLine(m: string, labelName: string, value: string, c: u64): string
  {
    m + "_total{" + labelName + "=" + Quote(value) + "} " + Decimal(c as nat) + "\n"
  }

  /** `<m>_seconds_count{<labelName>=<quoted value>} <count>` */
  function CountLine(m: string, labelName: string, value: string, c: u64): string
  {
    m + "_seconds_count{" + labelName + "=" + Quote(value) + "} " + Decimal(c as nat) + "\n"
  }

  /** `<m>_seconds_sum{<labelName>=<quoted value>} <sum to 3 decimals>` */
  function SumLine(m: string, labelName: string, value: string, s: real, fixed3: real -> string): string
  {
    m + "_seconds_sum{" + labelName + "=" + Quote(value) + "} " + fixed3(s) + "\n"
  }

  /** `<m>_total_seconds_bucket{le=<quoted bound name>} <count>`; the `+Inf`
      line of metrics/metrics.go is this line for the name `+Inf`. */
  function BucketLine(m: string, boundName: string, c: u64): string
  {
    m + "_total_seconds_bucket{le=" + Quote(boundName) + "} " + Decimal(c as nat) + "\n"
  }

  /** `<m>_total_seconds_sum <sum to 3 decimals>` */
  function TotalSumLine(m: string, s: real, fixed3: real -> string): string
  {
    m + "_total_seconds_sum " + fixed3(s) + "\n"
  }

  /** `<m>_total_seconds_count <count>` */
  function TotalCountLine(m: string, c: u64): string
  {
    m + "_total_seconds_count " + Decimal(c as nat) + "\n"
  }

  // Every line builder writes one whole line: its newline comes last and there
  // is no other, whatever the label values and bound names hold, since quoting
  // escapes their newlines. Only the metric and label names and the formatted
  // sums must be free of newlines themselves.

  lemma HeaderLinesWhole(family: string, kind: string, metricName: string)
    requires '\n' !in family && '\n' !in kind && '\n' !in metricName
    ensures OneLine(TypeLine(family, kind)) && OneLine(UnitLine(family))
    ensures OneLine(HelpLine(family, kind, metricName))
  {
    SpacedKeepsLines(metricName);
    NewlineEnds("# TYPE " + family + " " + kind);
    NewlineEnds("# UNIT " + family + " seconds");
    NewlineEnds("# HELP " + family + " A " + kind + " of the " + Spaced(metricName) + ".");
  }

  lemma CountLinesWhole(m: string, labelName: string, value: string, c: u64)
    requires '\n' !in m && '\n' !in labelName
    ensures OneLine(CounterLine(m, labelName, value, c)) && OneLine(CountLine(m, labelName, value, c))
  {
    QuoteReadsBack(value);
    NewlineEnds(m + "_total{" + labelName + "=" + Quote(value) + "} " + Decimal(c as nat));
    NewlineEnds(m + "_seconds_count{" + labelName + "=" + Quote(value) + "} " + Decimal(c as nat));
  }

  lemma SumLinesWhole(m: string, labelName: string, value: string, s: real, fixed3: real -> string)
    requires '\n' !in m && '\n' !in labelName && '\n' !in fixed3(s)
    ensures OneLine(SumLine(m, labelName, value, s, fixed3)) && OneLine(TotalSumLine(m, s, fixed3))
  {
    QuoteReadsBack(value);
    NewlineEnds(m + "_seconds_sum{" + labelName + "=" + Quote(value) + "} " + fixed3(s));
    NewlineEnds(m + "_total_seconds_sum " + fixed3(s));
  }

  lemma BucketLinesWhole(m: string, boundName: string, c: u64)
    requires '\n' !in m
    ensures OneLine(BucketLine(m, boundName, c)) && OneLine(TotalCountLine(m, c))
  {
    QuoteReadsBack(boundName);
    NewlineEnds(m + "_total_seconds_bucket{le=" + Quote(boundName) + "} " + Decimal(c as nat));
    NewlineEnds(m + "_total_seconds_count " + Decimal(c as nat));
  }

  /** The literal `le="+Inf"` of metrics/metrics.go is the quoted name `+Inf`. */
  lemma QuoteInf()
    ensures Quote("+Inf") == "\"+Inf\""
  {
    EscapePlain("+Inf");
  }

  /** The counter line `Inc("hits", "code", "200", 5)` leads to, as text. */
  lemma HitsCounterLine()
    ensures CounterLine("hits", "code", "200", 5) == "hits_total{code=\"200\"} 5\n"
  {
    var quoted := Quote("200");
    assert quoted == "\"200\"" by {
      EscapePlain("200");
    }
    assert Decimal(5) == "5";
    var front := "hits" + "_total{" + "code" + "=";
    assert front == "hits_total{code=";
    var middle := front + quoted;
    assert middle == "hits_total{code=\"200\"";
    var back := "} " + "5" + "\n";
    assert back == "} 5\n";
    assert CounterLine("hits", "code", "200", 5) == middle + back;
  }

  /** The count and sum lines of every label value in `vs`, in that order. */
  function SummaryLines(m: string, labelName: string, vs: seq<string>, counts: map<string, u64>,
                        sums: map<string, real>, fixed3: real -> string): seq<string>
  {
    if vs == [] then []
    else
      var v := vs[|vs| - 1];
      SummaryLines(m, labelName, vs[..|vs| - 1], counts, sums, fixed3)
        + [CountLine(m, labelName, v, Get(counts, v, 0)), SumLine(m, labelName, v, Get(sums, v, 0.0), fixed3)]
  }

  /** Go's `sum += s` along `vs`. */
  function RealSum(vs: seq<string>, sums: map<string, real>): real
  {
    if vs == [] then 0.0 else RealSum(vs[..|vs| - 1], sums) + Get(sums, vs[|vs| - 1], 0.0)
  }

  /** One bucket line per bound, in the stored order. */
  function BucketLines(m: string, bs: seq<Bound>, buckets: map<string, u64>): seq<string>
  {
    if bs == [] then []
    else BucketLines(m, bs[..|bs| - 1], buckets) + [BucketLine(m, bs[|bs| - 1].name, Get(buckets, bs[|bs| - 1].name, 0))]
  }

  /** Two lines per label value: the count line of `vs[i]` at `2i`, its sum line
      at `2i + 1`. */
  lemma {:induction false} SummaryLinesAt(m: string, labelName: string, vs: seq<string>, counts: map<string, u64>,
                                          sums: map<string, real>, fixed3: real -> string)
    ensures |SummaryLines(m, labelName, vs, counts, sums, fixed3)| == 2 * |vs|
    ensures forall i :: 0 <= i < |vs| ==>
      SummaryLines(m, labelName, vs, counts, sums, fixed3)[2 * i] == CountLine(m, labelName, vs[i], Get(counts, vs[i], 0)) &&
      SummaryLines(m, labelName, vs, counts, sums, fixed3)[2 * i + 1] == SumLine(m, labelName, vs[i], Get(sums, vs[i], 0.0), fixed3)
  {
    SummaryLinesLength(m, labelName, vs, counts, sums, fixed3);
    forall i | 0 <= i < |vs|
      ensures SummaryLines(m, labelName, vs, counts, sums, fixed3)[2 * i] == CountLine(m, labelName, vs[i], Get(counts, vs[i], 0))
      ensures SummaryLines(m, labelName, vs, counts, sums, fixed3)[2 * i + 1] == SumLine(m, labelName, vs[i], Get(sums, vs[i], 0.0), fixed3)
    {
      SummaryLineAt(m, labelName, vs, counts, sums, fixed3, i);
    }
  }

  lemma {:induction false} SummaryLinesLength(m: string, labelName: string, vs: seq<string>, counts: map<string, u64>,
                                              sums: map<string, real>, fixed3: real -> string)
    ensures |SummaryLines(m, labelName, vs, counts, sums, fixed3)| == 2 * |vs|
    decreases |vs|
  {
    if vs != [] {
      SummaryLinesLength(m, labelName, vs[..|vs| - 1], counts, sums, fixed3);
    }
  }

  /** The two lines of the label value at `i`. */
  lemma {:induction false} SummaryLineAt(m: string, labelName: string, vs: seq<string>, counts: map<string, u64>,
                                         sums: map<string, real>, fixed3: real -> string, i: nat)
    requires i < |vs|
    ensures |SummaryLines(m, labelName, vs, counts, sums, fixed3)| == 2 * |vs|
    ensures SummaryLines(m, labelName, vs, counts, sums, fixed3)[2 * i] == CountLine(m, labelName, vs[i], Get(counts, vs[i], 0))
    ensures SummaryLines(m, labelName, vs, counts, sums, fixed3)[2 * i + 1] == SumLine(m, labelName, vs[i], Get(sums, vs[i], 0.0), fixed3)
    decreases |vs|
  {
    var init := vs[..|vs| - 1];
    SummaryLinesLength(m, labelName, vs, counts, sums, fixed3);
    SummaryLinesLength(m, labelName, init, counts, sums, fixed3);
    if i < |init| {
      SummaryLineAt(m, labelName, init, counts, sums, fixed3, i);
      assert vs[i] == init[i];
    }
  }

  /** One line per bound: the line of `bs[i]` at `i`, showing its bucket count. */
  lemma {:induction false} BucketLinesAt(m: string, bs: seq<Bound>, buckets: map<string, u64>)
    ensures |BucketLines(m, bs, buckets)| == |bs|
    ensures forall i :: 0 <= i < |bs| ==>
      BucketLines(m, bs, buckets)[i] == BucketLine(m, bs[i].name, Get(buckets, bs[i].name, 0))
    decreases |bs|
  {
    if bs != [] {
      BucketLinesAt(m, bs[..|bs| - 1], buckets);
    }
  }

  lemma {:induction false} BucketLinesLength(m: string, bs: seq<Bound>, buckets: map<string, u64>)
    ensures |BucketLines(m, bs, buckets)| == |bs|
    decreases |bs|
  {
    if bs != [] {
      BucketLinesLength(m, bs[..|bs| - 1], buckets);
    }
  }

  lemma SummarySnoc(m: string, labelName: string, vs: seq<string>, i: nat, counts: map<string, u64>,
                    sums: map<string, real>, fixed3: real -> string)
    requires i < |vs|
    ensures SummaryLines(m, labelName, vs[..i + 1], counts, sums, fixed3)
         == SummaryLines(m, labelName, vs[..i], counts, sums, fixed3)
              + [CountLine(m, labelName, vs[i], Get(counts, vs[i], 0)), SumLine(m, labelName, vs[i], Get(sums, vs[i], 0.0), fixed3)]
    ensures SeqSum(vs[..i + 1], counts) == SeqSum(vs[..i], counts) + Get(counts, vs[i], 0) as int
    ensures RealSum(vs[..i + 1], sums) == RealSum(vs[..i], sums) + Get(sums, vs[i], 0.0)
  {
    assert vs[..i + 1][..i] == vs[..i];
  }

  /** The summary loop of `Write` in both registries: for each label value a
      count line and a sum line, while `count` and `sum` accumulate with Go's
      `+=`. The count it ends with is the sum of the counts modulo 2^64. */
  method WriteSummary(m: string, labelName: string, vs: seq<string>, counts: map<string, u64>,
                      sums: map<string, real>, fixed3: real -> string)
    returns (lines: seq<string>, count: u64, sum: real)
    ensures lines == SummaryLines(m, labelName, vs, counts, sums, fixed3)
    ensures count as int == SeqSum(vs, counts) % TWO_TO_THE_64
    ensures sum == RealSum(vs, sums)
  {
    lines, count, sum := [], 0, 0.0;
    for i := 0 to |vs|
      invariant lines == SummaryLines(m, labelName, vs[..i], counts, sums, fixed3)
      invariant count as int == SeqSum(vs[..i], counts) % TWO_TO_THE_64
      invariant sum == RealSum(vs[..i], sums)
    {
      var v := vs[i];
      SummarySnoc(m, labelName, vs, i, counts, sums, fixed3);
      var c := Get(counts, v, 0);
      Add64Running(count, SeqSum(vs[..i], counts), c);
      count := Add64(count, c);
      var s := Get(sums, v, 0.0);
      sum := sum + s;
      lines := lines + [CountLine(m, labelName, v, c), SumLine(m, labelName, v, s, fixed3)];
    }
    assert vs[..|vs|] == vs;
  }

  /** The bucket loop of `Write` in both registries: one line per stored bound,
      showing that bound's bucket (zero when it was never counted into). */
  method WriteBuckets(m: string, bs: seq<Bound>, buckets: map<string, u64>) returns (lines: seq<string>)
    ensures lines == BucketLines(m, bs, buckets)
  {
    lines := [];
    for i := 0 to |bs|
      invariant lines == BucketLines(m, bs[..i], buckets)
    {
      assert bs[..i + 1][..i] == bs[..i];
      var b := bs[i];
      var v := Get(buckets, b.name, 0);
      lines := lines + [BucketLine(m, b.name, v)];
    }
    assert bs[..|bs|] == bs;
  }

  /** Every line a metric produces is longer than an end-of-file marker. */
  ghost predicate AllLong(lines: seq<string>)
  {
    forall i :: 0 <= i < |lines| ==> |lines[i]| > 6
  }

  lemma {:induction false} SummaryLinesLong(m: string, labelName: string, vs: seq<string>, counts: map<string, u64>,
                                            sums: map<string, real>, fixed3: real -> string)
    ensures AllLong(SummaryLines(m, labelName, vs, counts, sums, fixed3))
    decreases |vs|
  {
    if vs != [] {
      var init, v := vs[..|vs| - 1], vs[|vs| - 1];
      SummaryLinesLong(m, labelName, init, counts, sums, fixed3);
      var pair := [CountLine(m, labelName, v, Get(counts, v, 0)), SumLine(m, labelName, v, Get(sums, v, 0.0), fixed3)];
      assert AllLong(pair);
      AllLongConcat(SummaryLines(m, labelName, init, counts, sums, fixed3), pair);
    }
  }

  lemma BucketLinesLong(m: string, bs: seq<Bound>, buckets: map<string, u64>)
    ensures AllLong(BucketLines(m, bs, buckets))
  {
    BucketLinesAt(m, bs, buckets);
  }

  lemma AllLongConcat(a: seq<string>, b: seq<string>)
    requires AllLong(a) && AllLong(b)
    ensures AllLong(a + b)
  {
    forall i | 0 <= i < |a + b| ensures |(a + b)[i]| > 6 {
      if i >= |a| {
        assert (a + b)[i] == b[i - |a|];
      }
    }
  }
}
