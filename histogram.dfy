/** Histogram buckets shared by both registries: the boundary list built at
    construction, and the downward early-exit scan that counts one observation
    in every bucket whose upper bound is at or above it. */
module Histogram {
  import opened Counts

  /** A bucket upper bound: `Bucket{Name, Value}` in metrics/metrics.go and
      `Boundary{name, value}` in statistics/statistics.go. `name` is the `%g`
      text of `value`; bucket counts are keyed by `name`. */
  datatype Bound = Bound(name: string, value: real)

  /** Ascending by value. */
  predicate ByValue(bs: seq<Bound>)
  {
    forall i, j :: 0 <= i < j < |bs| ==> bs[i].value <= bs[j].value
  }

  predicate DistinctNames(bs: seq<Bound>)
  {
    forall i, j :: 0 <= i < j < |bs| ==> bs[i].name != bs[j].name
  }

  function Values(bs: seq<Bound>): (vs: seq<real>)
    ensures |vs| == |bs| && forall i :: 0 <= i < |bs| ==> vs[i] == bs[i].value
  {
    if bs == [] then [] else Values(bs[..|bs| - 1]) + [bs[|bs| - 1].value]
  }

  // ----- sort.Float64s -----

  predicate SortedReals(s: seq<real>)
  {
    forall i, j :: 0 <= i < j < |s| ==> s[i] <= s[j]
  }

  function InsertReal(s: seq<real>, x: real): (r: seq<real>)
    requires SortedReals(s)
    ensures SortedReals(r) && multiset(r) == multiset(s) + multiset{x}
    ensures |r| == |s| + 1 && (r[0] == x || (|s| > 0 && r[0] == s[0]))
  {
    if s == [] then [x]
    else if x <= s[0] then
      ConsSorted(x, s);
      [x] + s
    else
      var t := InsertReal(s[1..], x);
      assert s == [s[0]] + s[1..];
      ConsSorted(s[0], t);
      [s[0]] + t
  }

  lemma ConsSorted(h: real, t: seq<real>)
    requires SortedReals(t) && (t == [] || h <= t[0])
    ensures SortedReals([h] + t)
  {
    var r := [h] + t;
    forall i, j | 0 <= i < j < |r| ensures r[i] <= r[j] {
      if i == 0 {
        assert r[j] == t[j - 1];
        assert t[0] <= t[j - 1];
      } else {
        assert r[i] == t[i - 1] && r[j] == t[j - 1];
      }
    }
  }

  /** `sort.Float64s`: the values in ascending order, none lost or added. */
  function SortReals(s: seq<real>): (r: seq<real>)
    ensures SortedReals(r) && multiset(r) == multiset(s)
  {
    if s == [] then []
    else
      assert s == s[..|s| - 1] + [s[|s| - 1]];
      InsertReal(SortReals(s[..|s| - 1]), s[|s| - 1])
  }

  /** A sorted order is unique: two ascending sequences holding the same values
      are equal. */
  lemma {:induction false} SortedUnique(a: seq<real>, b: seq<real>)
    requires SortedReals(a) && SortedReals(b) && multiset(a) == multiset(b)
    ensures a == b
    decreases |a|
  {
    if a == [] {
      assert |b| == |multiset(b)| == 0;
    } else {
      assert a[0] in multiset(b);
      var i :| 0 <= i < |b| && b[i] == a[0];
      assert b[0] in multiset(a);
      var j :| 0 <= j < |a| && a[j] == b[0];
      assert a[0] <= a[j] == b[0] <= b[i] == a[0];
      var a', b' := a[1..], b[1..];
      MultisetTail(a, b);
      SortedUnique(a', b');
    }
  }

  lemma MultisetTail(a: seq<real>, b: seq<real>)
    requires |a| > 0 && |b| > 0 && a[0] == b[0] && multiset(a) == multiset(b)
    ensures multiset(a[1..]) == multiset(b[1..])
  {
    assert a == [a[0]] + a[1..] && b == [b[0]] + b[1..];
    assert multiset(a) == multiset{a[0]} + multiset(a[1..]);
    assert multiset(b) == multiset{b[0]} + multiset(b[1..]);
    forall y ensures multiset(a[1..])[y] == multiset(b[1..])[y] {
      assert multiset(a)[y] == multiset(b)[y];
    }
  }

  /** The construction loop of `NewWithBuckets` (metrics/metrics.go) and of
      `New` (statistics/statistics.go) before its sentinel: sort the values, then
      append one bound per value, named by `format` (Go's `%g`). */
  method MakeBounds(values: seq<real>, format: real -> string) returns (bs: seq<Bound>)
    ensures |bs| == |values| && ByValue(bs)
    ensures multiset(Values(bs)) == multiset(values) && Values(bs) == SortReals(values)
    ensures forall i :: 0 <= i < |bs| ==> bs[i].name == format(bs[i].value)
  {
    var sorted := SortReals(values);
    bs := [];
    for i := 0 to |sorted|
      invariant |bs| == i
      invariant forall j :: 0 <= j < i ==> bs[j] == Bound(format(sorted[j]), sorted[j])
    {
      bs := bs + [Bound(format(sorted[i]), sorted[i])];
    }
    assert |multiset(sorted)| == |sorted|;
    assert Values(bs) == sorted;
  }

  // ----- one observation -----

  /** `m[name]++` on a `map[string]uint64`: the cell of `name` (zero when
      missing) goes up by one modulo 2^64, every other cell stays. */
  function Bump(m: map<string, u64>, name: string): (r: map<string, u64>)
    ensures name in r && r[name] as int == (Get(m, name, 0) as int + 1) % TWO_TO_THE_64
    ensures r - {name} == m - {name}
  {
    m[name := Add64(Get(m, name, 0), 1)]
  }

  /** The reference definition of a cumulative observation: every bound at or
      above `d` counts it once, looking at all bounds (the last first). */
  function Bumped(bs: seq<Bound>, m: map<string, u64>, d: real): (r: map<string, u64>)
    ensures m.Keys <= r.Keys
    ensures forall i :: 0 <= i < |bs| && d <= bs[i].value ==> bs[i].name in r
    decreases |bs|
  {
    if bs == [] then m
    else
      var b := bs[|bs| - 1];
      Bumped(bs[..|bs| - 1], if d <= b.value then Bump(m, b.name) else m, d)
  }

  /** How many bounds named `n` lie at or above `d`. */
  function Hits(bs: seq<Bound>, n: string, d: real): nat
  {
    if bs == [] then 0
    else Hits(bs[..|bs| - 1], n, d) + (if bs[|bs| - 1].name == n && d <= bs[|bs| - 1].value then 1 else 0)
  }

  /** After an observation the bucket named `n` holds its old count plus one per
      bound named `n` at or above the observation (modulo 2^64), and it exists
      exactly when it existed before or was counted into. */
  lemma {:induction false} BumpedCell(bs: seq<Bound>, m: map<string, u64>, d: real, n: string)
    ensures n in Bumped(bs, m, d) <==> n in m || Hits(bs, n, d) > 0
    ensures Get(Bumped(bs, m, d), n, 0) as int == (Get(m, n, 0) as int + Hits(bs, n, d)) % TWO_TO_THE_64
    decreases |bs|
  {
    if bs != [] {
      var b := bs[|bs| - 1];
      var m' := if d <= b.value then Bump(m, b.name) else m;
      BumpedCell(bs[..|bs| - 1], m', d, n);
      if d <= b.value && b.name == n {
        ModAddLeft(Get(m, n, 0) as int + 1, Hits(bs[..|bs| - 1], n, d));
      }
    }
  }

  /** Two bounds with the same value get the same name, and then one
      observation below them counts twice in their shared bucket. */
  lemma DuplicateBoundsCountTwice()
    ensures Get(Bumped([Bound("1", 1.0), Bound("1", 1.0)], map[], 0.5), "1", 0) == 2
  {
    var bs := [Bound("1", 1.0), Bound("1", 1.0)];
    assert bs[..1] == [Bound("1", 1.0)];
    assert Bumped(bs, map[], 0.5) == Bumped([Bound("1", 1.0)], map["1" := 1], 0.5);
  }

  /** With distinct names, a bound's own bucket is hit once if the observation
      is at or below it and not at all otherwise. */
  lemma {:induction false} HitsDistinct(bs: seq<Bound>, i: nat, d: real)
    requires DistinctNames(bs) && i < |bs|
    ensures Hits(bs, bs[i].name, d) == if d <= bs[i].value then 1 else 0
    decreases |bs|
  {
    var init := bs[..|bs| - 1];
    if i < |bs| - 1 {
      HitsDistinct(init, i, d);
    } else {
      HitsNone(init, bs[i].name, d);
    }
  }

  /** A name that no bound at or above `d` carries is not hit. */
  lemma {:induction false} HitsNone(bs: seq<Bound>, n: string, d: real)
    requires forall i :: 0 <= i < |bs| && bs[i].name == n ==> bs[i].value < d
    ensures Hits(bs, n, d) == 0
    decreases |bs|
  {
    if bs != [] {
      HitsNone(bs[..|bs| - 1], n, d);
    }
  }

  lemma {:induction false} BumpedNone(bs: seq<Bound>, m: map<string, u64>, d: real)
    requires forall i :: 0 <= i < |bs| ==> bs[i].value < d
    ensures Bumped(bs, m, d) == m
    decreases |bs|
  {
    if bs != [] {
      BumpedNone(bs[..|bs| - 1], m, d);
    }
  }

  /** The bucket loop of `Add` in both registries: from the largest bound down,
      count the observation until the first bound below it, then stop. On
      ascending bounds this is the reference definition `Bumped`. */
  method Observe(bs: seq<Bound>, m: map<string, u64>, d: real) returns (r: map<string, u64>)
    requires ByValue(bs)
    ensures r == Bumped(bs, m, d)
  {
    r := m;
    var i := |bs|;
    assert bs[..i] == bs;
    while i > 0
      invariant 0 <= i <= |bs|
      invariant Bumped(bs[..i], r, d) == Bumped(bs, m, d)
    {
      var b := bs[i - 1];
      assert bs[..i][..i - 1] == bs[..i - 1];
      if b.value < d {
        BumpedNone(bs[..i], r, d);
        break;
      }
      r := Bump(r, b.name);
      i := i - 1;
    }
  }

  // ----- the cumulative-histogram invariant -----

  /** Bucket counts never decrease along ascending bounds. */
  ghost predicate Cumulative(bs: seq<Bound>, m: map<string, u64>)
  {
    forall i, j :: 0 <= i <= j < |bs| ==> Get(m, bs[i].name, 0) <= Get(m, bs[j].name, 0)
  }

  /** No bucket counts more than `total` observations. */
  ghost predicate AtMost(bs: seq<Bound>, m: map<string, u64>, total: nat)
  {
    forall i :: 0 <= i < |bs| ==> Get(m, bs[i].name, 0) as int <= total
  }

  /** One more observation keeps the counts non-decreasing along the bounds and
      raises the bound on every count by one, as long as nothing wraps. */
  lemma BumpedKeepsCumulative(bs: seq<Bound>, m: map<string, u64>, d: real, total: nat)
    requires ByValue(bs) && DistinctNames(bs)
    requires Cumulative(bs, m) && AtMost(bs, m, total)
    requires total + 1 < TWO_TO_THE_64
    ensures Cumulative(bs, Bumped(bs, m, d)) && AtMost(bs, Bumped(bs, m, d), total + 1)
  {
    var m' := Bumped(bs, m, d);
    forall i | 0 <= i < |bs|
      ensures Get(m', bs[i].name, 0) as int == Get(m, bs[i].name, 0) as int + (if d <= bs[i].value then 1 else 0)
    {
      BumpedAt(bs, m, d, i, total);
    }
    forall i, j | 0 <= i <= j < |bs| ensures Get(m', bs[i].name, 0) <= Get(m', bs[j].name, 0) {
      assert Get(m, bs[i].name, 0) <= Get(m, bs[j].name, 0);
    }
  }

  /** The bucket of one bound after an observation, when nothing wraps. */
  lemma BumpedAt(bs: seq<Bound>, m: map<string, u64>, d: real, i: nat, total: nat)
    requires DistinctNames(bs) && i < |bs|
    requires AtMost(bs, m, total) && total + 1 < TWO_TO_THE_64
    ensures Get(Bumped(bs, m, d), bs[i].name, 0) as int == Get(m, bs[i].name, 0) as int + (if d <= bs[i].value then 1 else 0)
  {
    BumpedCell(bs, m, d, bs[i].name);
    HitsDistinct(bs, i, d);
  }
}
