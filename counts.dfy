/** The registry's counters: Go `uint64` values in `map[string]uint64`, read
    with the zero value for a missing key, bumped with `+=` (which wraps at
    2^64), summed, and merged entrywise. */
module Counts {

  const TWO_TO_THE_64: int := 0x1_0000_0000_0000_0000

  newtype u64 = x: int | 0 <= x < 0x1_0000_0000_0000_0000

  /** Go's `+` on `uint64`: the sum modulo 2^64. */
  function Add64(a: u64, b: u64): u64
  {
    ((a as int + b as int) % TWO_TO_THE_64) as u64
  }

  /** Go's `+` on `float64`, with the rounding left out. */
  function AddReal(a: real, b: real): real
  {
    a + b
  }

  /** Reading a Go map: a missing key reads as the zero value. */
  function Get<V>(m: map<string, V>, k: string, zero: V): V
  {
    if k in m then m[k] else zero
  }

  /** Folding the modulus in early or late gives the same residue. */
  lemma ModAddLeft(a: int, b: int)
    requires a >= 0 && b >= 0
    ensures (a % TWO_TO_THE_64 + b) % TWO_TO_THE_64 == (a + b) % TWO_TO_THE_64
  {
    var q := a / TWO_TO_THE_64;
    assert a == q * TWO_TO_THE_64 + a % TWO_TO_THE_64;
    assert a + b == (a % TWO_TO_THE_64 + b) + q * TWO_TO_THE_64;
    ModMultiple(a % TWO_TO_THE_64 + b, q);
  }

  /** A running `uint64` sum stays the unbounded sum modulo 2^64. */
  lemma Add64Running(acc: u64, sofar: nat, c: u64)
    requires acc as int == sofar % TWO_TO_THE_64
    ensures Add64(acc, c) as int == (sofar + c as int) % TWO_TO_THE_64
  {
    ModAddLeft(sofar, c as int);
  }

  lemma ModMultiple(x: int, q: int)
    requires x >= 0 && q >= 0
    ensures (x + q * TWO_TO_THE_64) % TWO_TO_THE_64 == x % TWO_TO_THE_64
    decreases q
  {
    if q > 0 {
      ModMultiple(x, q - 1);
      assert x + q * TWO_TO_THE_64 == (x + (q - 1) * TWO_TO_THE_64) + TWO_TO_THE_64;
    }
  }

  /** Go's uint64 addition is associative: sums wrap to the same value whatever
      the grouping. */
  lemma {:induction false} Add64Associative(a: u64, b: u64, c: u64)
    ensures Add64(Add64(a, b), c) == Add64(a, Add64(b, c))
  {
    ModAddLeft(a as int + b as int, c as int);
    ModAddLeft(b as int + c as int, a as int);
    assert a as int + (b as int + c as int) == (b as int + c as int) + a as int;
  }

  /** `k` counted `n` times: the value read afterwards is the old one plus `n`,
      modulo 2^64. */
  function Bumps(v: u64, n: nat): (r: u64)
    ensures r as int == (v as int + n) % TWO_TO_THE_64
  {
    if n == 0 then v
    else
      var r := Add64(Bumps(v, n - 1), 1);
      ModAddLeft(v as int + n - 1, 1);
      r
  }

  // ----- sums over a map -----

  /** The sum of `m` over the keys `ks`, as an unbounded number. */
  ghost function SumOver(m: map<string, u64>, ks: set<string>): nat
    requires ks <= m.Keys
    decreases ks
  {
    if ks == {} then 0
    else
      var k :| k in ks;
      m[k] as int + SumOver(m, ks - {k})
  }

  /** The sum of all values of `m`. */
  ghost function Total(m: map<string, u64>): nat
  {
    SumOver(m, m.Keys)
  }

  /** The sum does not depend on which key is taken first. */
  lemma {:induction false} SumOverRemove(m: map<string, u64>, ks: set<string>, k: string)
    requires ks <= m.Keys && k in ks
    ensures SumOver(m, ks) == m[k] as int + SumOver(m, ks - {k})
    decreases ks
  {
    var x :| x in ks && SumOver(m, ks) == m[x] as int + SumOver(m, ks - {x});
    if x != k {
      SumOverRemove(m, ks - {x}, k);
      SumOverRemove(m, ks - {k}, x);
      assert ks - {x} - {k} == ks - {k} - {x};
    }
  }

  /** The sum over `ks` only reads `m` at `ks`. */
  lemma {:induction false} SumOverAgree(m1: map<string, u64>, m2: map<string, u64>, ks: set<string>)
    requires ks <= m1.Keys && ks <= m2.Keys
    requires forall k :: k in ks ==> m1[k] == m2[k]
    ensures SumOver(m1, ks) == SumOver(m2, ks)
    decreases ks
  {
    if ks != {} {
      var k :| k in ks;
      SumOverRemove(m1, ks, k);
      SumOverRemove(m2, ks, k);
      SumOverAgree(m1, m2, ks - {k});
    }
  }

  /** Writing `x` at `k` moves the total by the difference between `x` and
      what `k` read before. */
  lemma TotalUpdate(m: map<string, u64>, k: string, x: u64)
    ensures Total(m[k := x]) + Get(m, k, 0) as int == Total(m) + x as int
  {
    var m' := m[k := x];
    SumOverRemove(m', m'.Keys, k);
    SumOverAgree(m, m', m.Keys - {k});
    assert m'.Keys - {k} == m.Keys - {k};
    if k in m {
      SumOverRemove(m, m.Keys, k);
    } else {
      assert m.Keys - {k} == m.Keys;
    }
  }

  /** Every single value is at most the total. */
  lemma ValueAtMostTotal(m: map<string, u64>, k: string)
    ensures Get(m, k, 0) as int <= Total(m)
  {
    if k in m {
      SumOverRemove(m, m.Keys, k);
    }
  }

  /** The sum of a run of observed durations, from the first on. */
  function SumOfReals(ds: seq<real>): real
  {
    if ds == [] then 0.0 else SumOfReals(ds[..|ds| - 1]) + ds[|ds| - 1]
  }

  /** Go's loop `for _, k := range keys { count += m[k] }` before wrap-around:
      the values of `m` at `ks`, added from the first key on. */
  function SeqSum(ks: seq<string>, m: map<string, u64>): nat
  {
    if ks == [] then 0 else SeqSum(ks[..|ks| - 1], m) + Get(m, ks[|ks| - 1], 0) as int
  }

  /** Adding up the values along any duplicate-free listing of the keys gives
      the total. */
  lemma {:induction false} SeqSumIsTotal(ks: seq<string>, m: map<string, u64>)
    requires forall i, j :: 0 <= i < j < |ks| ==> ks[i] != ks[j]
    requires forall y :: y in ks <==> y in m
    ensures SeqSum(ks, m) == Total(m)
    decreases |ks|
  {
    if ks == [] {
      assert m.Keys == {};
    } else {
      var last := ks[|ks| - 1];
      var init := ks[..|ks| - 1];
      var m' := m - {last};
      assert last !in init;
      forall y ensures y in init <==> y in m' {
        if y in init {
          var i :| 0 <= i < |init| && init[i] == y;
        }
        if y in m' {
          assert y in ks && y != last;
          var i :| 0 <= i < |ks| && ks[i] == y;
          assert init[i] == y;
        }
      }
      SeqSumIsTotal(init, m');
      SeqSumAgree(init, m, m');
      SumOverRemove(m, m.Keys, last);
      SumOverAgree(m, m', m.Keys - {last});
      assert m'.Keys == m.Keys - {last};
    }
  }

  lemma {:induction false} SeqSumAgree(ks: seq<string>, m1: map<string, u64>, m2: map<string, u64>)
    requires forall y :: y in ks ==> Get(m1, y, 0) == Get(m2, y, 0)
    ensures SeqSum(ks, m1) == SeqSum(ks, m2)
    decreases |ks|
  {
    if ks != [] {
      SeqSumAgree(ks[..|ks| - 1], m1, m2);
    }
  }

  // ----- entrywise merge -----

  /** What `for k, v := range source { target[k] += v }` leaves in `target`. */
  function Combine<V>(target: map<string, V>, source: map<string, V>, plus: (V, V) -> V, zero: V): map<string, V>
  {
    map k | k in target.Keys + source.Keys ::
      if k in source then plus(Get(target, k, zero), source[k]) else target[k]
  }

  /** `r` is the entrywise merge of two counter maps: every key of either
      side, each cell the wrapped sum of the two cells (a missing cell reads as
      zero). */
  ghost predicate MergedCounts(r: map<string, u64>, a: map<string, u64>, b: map<string, u64>)
  {
    && r.Keys == a.Keys + b.Keys
    && forall k {:trigger Get(r, k, 0)} :: Get(r, k, 0) as int == (Get(a, k, 0) as int + Get(b, k, 0) as int) % TWO_TO_THE_64
  }

  /** The same for sums. */
  ghost predicate MergedSums(r: map<string, real>, a: map<string, real>, b: map<string, real>)
  {
    && r.Keys == a.Keys + b.Keys
    && forall k {:trigger Get(r, k, 0.0)} :: Get(r, k, 0.0) == Get(a, k, 0.0) + Get(b, k, 0.0)
  }

  lemma Combine64(target: map<string, u64>, source: map<string, u64>)
    ensures MergedCounts(Combine(target, source, Add64, 0), target, source)
  {
    var r := Combine(target, source, Add64, 0);
    forall k ensures Get(r, k, 0) as int == (Get(target, k, 0) as int + Get(source, k, 0) as int) % TWO_TO_THE_64 {
      if k in target && k !in source {
        assert r[k] == target[k];
      }
    }
  }

  lemma CombineReal(target: map<string, real>, source: map<string, real>)
    ensures MergedSums(Combine(target, source, AddReal, 0.0), target, source)
  {
  }

  ghost predicate Commutative<V(!new)>(plus: (V, V) -> V)
  {
    forall a, b :: plus(a, b) == plus(b, a)
  }

  ghost predicate Associative<V(!new)>(plus: (V, V) -> V)
  {
    forall a, b, c :: plus(plus(a, b), c) == plus(a, plus(b, c))
  }

  ghost predicate LeftIdentity<V(!new)>(plus: (V, V) -> V, zero: V)
  {
    forall a :: plus(zero, a) == a
  }

  /** Merging `source` into `target` or `target` into `source` gives the same
      map, for an addition that commutes and has the zero value as identity. */
  lemma CombineCommutes<V(!new)>(t: map<string, V>, s: map<string, V>, plus: (V, V) -> V, zero: V)
    requires Commutative(plus) && LeftIdentity(plus, zero)
    ensures Combine(t, s, plus, zero) == Combine(s, t, plus, zero)
  {
    var l := Combine(t, s, plus, zero);
    var r := Combine(s, t, plus, zero);
    assert l.Keys == r.Keys;
    forall k | k in l ensures l[k] == r[k] {
      if k in s && k in t {
        assert plus(t[k], s[k]) == plus(s[k], t[k]);
      }
    }
  }

  /** Merging `a` then `b` into `t` equals merging `a` and `b` first, for an
      associative addition with the zero value as identity. */
  lemma CombineAssociates<V(!new)>(t: map<string, V>, a: map<string, V>, b: map<string, V>, plus: (V, V) -> V, zero: V)
    requires Associative(plus) && LeftIdentity(plus, zero)
    ensures Combine(Combine(t, a, plus, zero), b, plus, zero)
         == Combine(t, Combine(a, b, plus, zero), plus, zero)
  {
    var ab := Combine(a, b, plus, zero);
    var l := Combine(Combine(t, a, plus, zero), b, plus, zero);
    var r := Combine(t, ab, plus, zero);
    assert l.Keys == r.Keys;
    forall k | k in l ensures l[k] == r[k] {
      if k in a && k in b {
        assert plus(plus(Get(t, k, zero), a[k]), b[k]) == plus(Get(t, k, zero), plus(a[k], b[k]));
      } else if k in b && k !in t {
        assert plus(zero, b[k]) == b[k];
      } else if k in a && k !in t {
        assert plus(zero, a[k]) == a[k];
      }
    }
  }

  lemma Add64Laws()
    ensures Commutative(Add64) && Associative(Add64) && LeftIdentity(Add64, 0)
  {
    forall a: u64, b: u64, c: u64 ensures Add64(Add64(a, b), c) == Add64(a, Add64(b, c)) {
      Add64Associative(a, b, c);
    }
  }

  lemma AddRealCommutes()
    ensures Commutative(AddReal) && LeftIdentity(AddReal, 0.0)
  {
  }

  /** Go's loop `for k, v := range source { target[k] += v }`, with `plus` for
      `+` and `zero` for the map's zero value. */
  method AddEach<V>(target: map<string, V>, source: map<string, V>, plus: (V, V) -> V, zero: V)
    returns (r: map<string, V>)
    ensures r == Combine(target, source, plus, zero)
  {
    r := target;
    var todo := source.Keys;
    while todo != {}
      invariant todo <= source.Keys
      invariant r.Keys == target.Keys + (source.Keys - todo)
      invariant forall k :: k in r ==>
        r[k] == if k in source && k !in todo then plus(Get(target, k, zero), source[k]) else target[k]
      decreases todo
    {
      var k :| k in todo;
      r := r[k := plus(Get(r, k, zero), source[k])];
      todo := todo - {k};
    }
  }
}
