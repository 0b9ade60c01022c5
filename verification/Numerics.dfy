/** Finite sums over the reals, shared by every component that keeps a ledger,
    a rank sum or an error sum. */
module Numerics {

  /** The sum of a sequence, peeled from its end so that prefixes are natural to reason about. */
  function Sum(s: seq<real>): real {
    if s == [] then 0.0 else Sum(s[..|s| - 1]) + s[|s| - 1]
  }

  lemma {:induction false} SumConcat(a: seq<real>, b: seq<real>)
    ensures Sum(a + b) == Sum(a) + Sum(b)
  {
    if b == [] {
      assert a + b == a;
    } else {
      var init, last := b[..|b| - 1], b[|b| - 1];
      assert (a + b)[..|a + b| - 1] == a + init;
      SumConcat(a, init);
    }
  }

  lemma MulMonotone(a: real, b: real, c: real)
    requires a >= 0.0 && b <= c
    ensures a * b <= a * c
  {
    assert a * (c - b) >= 0.0;
  }

  lemma MulSign(a: real, b: real)
    ensures a > 0.0 && b > 0.0 ==> a * b > 0.0
    ensures a >= 0.0 && b >= 0.0 ==> a * b >= 0.0
    ensures b > 0.0 && a * b > 0.0 ==> a > 0.0
    ensures b > 0.0 && a * b >= 0.0 ==> a >= 0.0
  {
  }

  /** n times v, by repeated addition. */
  function Scale(v: real, n: nat): real {
    if n == 0 then 0.0 else Scale(v, n - 1) + v
  }

  lemma {:induction false} ScaleIsProduct(v: real, n: nat)
    ensures Scale(v, n) == v * n as real
  {
    if n > 0 {
      ScaleIsProduct(v, n - 1);
      assert v * n as real == v * (n - 1) as real + v;
    }
  }

  lemma QuotientLeq(a: real, f: real, b: real, f': real)
    requires f > 0.0 && f' > 0.0 && a * f' <= b * f
    ensures a / f <= b / f'
  {
    var u, w := a / f, b / f';
    var g := f * f';
    MulSign(f, f');
    assert a * f' == u * g && b * f == w * g;
    assert (w - u) * g == w * g - u * g;
    MulSign(w - u, g);
  }

  function Abs(x: real): real {
    if x < 0.0 then -x else x
  }

  function Min(a: real, b: real): real {
    if b < a then b else a
  }

  function Max(a: real, b: real): real {
    if b > a then b else a
  }

  // --------------------------------------------------------------------------
  // Sorting permutations
  // --------------------------------------------------------------------------

  /** order is one of the index sequences an argsort of x may return: every index once,
      values in nondecreasing order. The order of equal values is left open. */
  ghost predicate SortsIndices(order: seq<nat>, x: seq<real>) {
    && |order| == |x|
    && (forall k :: 0 <= k < |order| ==> order[k] < |x|)
    && (forall j, k :: 0 <= j < k < |order| ==> order[j] != order[k])
    && (forall i :: 0 <= i < |x| ==> i in order)
    && (forall j, k :: 0 <= j < k < |order| ==> x[order[j]] <= x[order[k]])
  }

  // --------------------------------------------------------------------------
  // Cardinalities
  // --------------------------------------------------------------------------

  lemma {:induction false} SubsetCardinality<T>(a: set<T>, b: set<T>)
    requires a <= b
    ensures |a| <= |b|
  {
    if a != {} {
      var x :| x in a;
      SubsetCardinality(a - {x}, b - {x});
    }
  }

  ghost function Row<A, B>(x: A, ys: set<B>): set<(A, B)> {
    set y | y in ys :: (x, y)
  }

  lemma {:induction false} RowCardinality<A, B>(x: A, ys: set<B>)
    ensures |Row(x, ys)| == |ys|
  {
    if ys != {} {
      var y :| y in ys;
      assert Row(x, ys) == Row(x, ys - {y}) + {(x, y)};
      RowCardinality(x, ys - {y});
    }
  }

  ghost function Product<A, B>(xs: set<A>, ys: set<B>): set<(A, B)> {
    set x, y | x in xs && y in ys :: (x, y)
  }

  lemma {:induction false} ProductCardinality<A, B>(xs: set<A>, ys: set<B>)
    ensures |Product(xs, ys)| == |xs| * |ys|
  {
    if xs == {} {
      assert Product(xs, ys) == {};
    } else {
      var x :| x in xs;
      assert Product(xs, ys) == Product(xs - {x}, ys) + Row(x, ys);
      assert Product(xs - {x}, ys) !! Row(x, ys);
      ProductCardinality(xs - {x}, ys);
      RowCardinality(x, ys);
      assert |xs| * |ys| == (|xs| - 1) * |ys| + |ys|;
    }
  }

  // --------------------------------------------------------------------------
  // Sums over maps
  // --------------------------------------------------------------------------

  ghost function MapSum<K, V>(m: map<K, V>, f: V -> real): real {
    if m == map[] then 0.0
    else
      var k :| k in m;
      f(m[k]) + MapSum(m - {k}, f)
  }

  /** Any key may be taken out first. */
  lemma {:induction false} MapSumTake<K, V>(m: map<K, V>, f: V -> real, k: K)
    requires k in m
    ensures MapSum(m, f) == f(m[k]) + MapSum(m - {k}, f)
    decreases |m|
  {
    var first :| first in m && MapSum(m, f) == f(m[first]) + MapSum(m - {first}, f);
    if first != k {
      MapSumTake(m - {first}, f, k);
      MapSumTake(m - {k}, f, first);
      assert m - {first} - {k} == m - {k} - {first};
    }
  }

  lemma {:induction false} MapSumUpdate<K, V>(m: map<K, V>, f: V -> real, k: K, v: V)
    ensures MapSum(m[k := v], f) == MapSum(m, f) + f(v) - (if k in m then f(m[k]) else 0.0)
  {
    MapSumTake(m[k := v], f, k);
    assert m[k := v] - {k} == m - {k};
    if k in m {
      MapSumTake(m, f, k);
    } else {
      assert m - {k} == m;
    }
  }
}
