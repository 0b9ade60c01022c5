/** Isotonic regression by pool-adjacent-violators (aimos/learning/calibration.py).

    The fit is a stack of blocks, each holding a value and a weight. The proof gives
    every block the stretch of samples it was pooled from and keeps two facts about it:
    the value is the mean of the stretch, and no prefix of the stretch has a smaller mean. */
module Calibration {
  import opened Numerics

  datatype IsotonicModel = IsotonicModel(x: seq<real>, y: seq<real>)

  ghost predicate Nondecreasing(s: seq<real>) {
    forall i, j :: 0 <= i <= j < |s| ==> s[i] <= s[j]
  }

  function Gather(s: seq<real>, order: seq<nat>): (g: seq<real>)
    requires forall k :: 0 <= k < |order| ==> order[k] < |s|
    ensures |g| == |order|
    ensures forall k :: 0 <= k < |order| ==> g[k] == s[order[k]]
  {
    seq(|order|, k requires 0 <= k < |order| => s[order[k]])
  }

  function Square(d: real): (s: real)
    ensures s >= 0.0
  {
    d * d
  }

  function SquaredError(a: seq<real>, b: seq<real>): (e: real)
    requires |a| == |b|
    ensures e >= 0.0
  {
    if a == [] then 0.0
    else
      var n := |a| - 1;
      SquaredError(a[..n], b[..n]) + Square(a[n] - b[n])
  }

  function Repeat(v: real, n: nat): (s: seq<real>)
    ensures |s| == n
    ensures forall k :: 0 <= k < n ==> s[k] == v
  {
    seq(n, _ => v)
  }

  /** Python's round: to the nearest integer, halves to the even one. */
  function Round(w: real): int {
    var below := w.Floor;
    var part := w - below as real;
    if part < 0.5 || (part == 0.5 && below % 2 == 0) then below else below + 1
  }

  // --------------------------------------------------------------------------
  // Blocks
  // --------------------------------------------------------------------------

  /** How much the samples exceed the level v in total. */
  function Excess(s: seq<real>, v: real): real {
    if s == [] then 0.0 else Excess(s[..|s| - 1], v) + (s[|s| - 1] - v)
  }

  /** Every prefix of s has a mean of at least v. */
  ghost predicate PrefixesExceed(s: seq<real>, v: real) {
    s == [] || (Excess(s, v) >= 0.0 && PrefixesExceed(s[..|s| - 1], v))
  }

  /** v is the mean of the block, and no prefix of the block has a smaller mean. */
  ghost predicate Pooled(block: seq<real>, v: real) {
    block != [] && Excess(block, v) == 0.0 && PrefixesExceed(block, v)
  }

  lemma {:induction false} ExcessConcat(a: seq<real>, b: seq<real>, v: real)
    ensures Excess(a + b, v) == Excess(a, v) + Excess(b, v)
  {
    if b == [] {
      assert a + b == a;
    } else {
      assert (a + b)[..|a + b| - 1] == a + b[..|b| - 1];
      ExcessConcat(a, b[..|b| - 1], v);
    }
  }

  lemma {:induction false} ExcessShift(s: seq<real>, v: real, u: real)
    ensures Excess(s, u) == Excess(s, v) + Scale(v - u, |s|)
  {
    if s != [] {
      ExcessShift(s[..|s| - 1], v, u);
    }
  }

  lemma {:induction false} ScaleMonotone(v: real, m: nat, n: nat)
    requires v >= 0.0 && m <= n
    ensures 0.0 <= Scale(v, m) <= Scale(v, n)
  {
    if n > 0 {
      ScaleMonotone(v, if m < n then m else m - 1, n - 1);
    }
  }

  function WeightedAverage(v1: real, w1: real, v2: real, w2: real): real
    requires w1 + w2 != 0.0
  {
    (v1 * w1 + v2 * w2) / (w1 + w2)
  }

  /** The pooled value lies between the two it replaces; the surplus of the first
      stretch over it is the deficit of the second. */
  lemma WeightedMean(v1: real, n1: nat, v2: real, n2: nat, v: real)
    requires n1 > 0 && n2 > 0 && v1 > v2
    requires v == WeightedAverage(v1, n1 as real, v2, n2 as real)
    ensures v2 <= v <= v1
    ensures Scale(v1 - v, n1) == Scale(v - v2, n2)
  {
    var w1, w2 := n1 as real, n2 as real;
    assert v * (w1 + w2) == v1 * w1 + v2 * w2;
    assert (v1 - v) * (w1 + w2) == w2 * (v1 - v2);
    assert (v - v2) * (w1 + w2) == w1 * (v1 - v2);
    MulSign(v1 - v2, w1);
    MulSign(v1 - v2, w2);
    MulSign(v1 - v, w1 + w2);
    MulSign(v - v2, w1 + w2);
    ScaleIsProduct(v1 - v, n1);
    ScaleIsProduct(v - v2, n2);
  }

  /** Lowering the level keeps the prefixes above it. */
  lemma {:induction false} PrefixesLower(s: seq<real>, v: real, u: real)
    requires PrefixesExceed(s, v) && u <= v
    ensures PrefixesExceed(s, u)
  {
    if s != [] {
      ExcessShift(s, v, u);
      ScaleMonotone(v - u, 0, |s|);
      PrefixesLower(s[..|s| - 1], v, u);
    }
  }

  /** The surplus of a covers the deficit of every prefix of a longer b. */
  lemma {:induction false} PrefixesJoin(a: seq<real>, b: seq<real>, v2: real, v: real, n: nat)
    requires PrefixesExceed(a, v) && PrefixesExceed(b, v2) && v2 <= v && |b| <= n
    requires Excess(a, v) == Scale(v - v2, n)
    ensures PrefixesExceed(a + b, v)
  {
    if b == [] {
      assert a + b == a;
    } else {
      var b' := b[..|b| - 1];
      PrefixesJoin(a, b', v2, v, n);
      assert (a + b)[..|a + b| - 1] == a + b';
      ExcessConcat(a, b, v);
      ExcessShift(b, v, v2);
      ScaleMonotone(v - v2, |b|, n);
    }
  }

  /** Pooling two adjacent violators keeps the block facts for the weighted mean. */
  lemma PoolViolators(a: seq<real>, b: seq<real>, v1: real, v2: real, v: real)
    requires Pooled(a, v1) && Pooled(b, v2) && v1 > v2
    requires v == WeightedAverage(v1, |a| as real, v2, |b| as real)
    ensures Pooled(a + b, v)
  {
    WeightedMean(v1, |a|, v2, |b|, v);
    ExcessShift(a, v1, v);
    ExcessShift(b, v, v2);
    ExcessConcat(a, b, v);
    PrefixesLower(a, v1, v);
    PrefixesJoin(a, b, v2, v, |b|);
  }

  /** What z costs over the constant v, beyond its own distance to v. */
  function Gap(y: seq<real>, v: real, z: seq<real>): real
    requires |y| == |z|
  {
    if y == [] then 0.0
    else
      var n := |y| - 1;
      Gap(y[..n], v, z[..n]) + StepGap(y[n], v, z[n])
  }

  function StepGap(y: real, v: real, t: real): real {
    2.0 * (y - v) * (v - t)
  }

  lemma {:induction false} GapIsExtraError(y: seq<real>, v: real, z: seq<real>, f: seq<real>)
    requires |y| == |z| == |f| && forall k :: 0 <= k < |f| ==> f[k] == v
    ensures Gap(y, v, z) == SquaredError(y, z) - SquaredError(y, f) - SquaredError(f, z)
  {
    if y != [] {
      var n := |y| - 1;
      GapIsExtraError(y[..n], v, z[..n], f[..n]);
      SquareExpansion(y[n], v, z[n]);
    }
  }

  lemma SquareExpansion(y: real, v: real, t: real)
    ensures StepGap(y, v, t) == Square(y - t) - Square(y - v) - Square(v - t)
  {
  }

  /** One step of Abel summation: s is the surplus before sample y, t' <= t the values of z. */
  lemma AbelStep(g: real, s: real, y: real, v: real, t': real, t: real)
    requires s >= 0.0 && t' <= t
    requires g >= 2.0 * s * (v - t')
    ensures g + StepGap(y, v, t) >= 2.0 * (s + (y - v)) * (v - t)
  {
    MulMonotone(s, v - t, v - t');
    assert (s + (y - v)) * (v - t) == s * (v - t) + (y - v) * (v - t);
  }

  /** Abel summation over one block: what a nondecreasing z loses against the block mean. */
  lemma {:induction false} BlockGap(y: seq<real>, v: real, z: seq<real>)
    requires |z| == |y| > 0 && Nondecreasing(z) && PrefixesExceed(y, v)
    ensures Gap(y, v, z) >= 2.0 * Excess(y, v) * (v - z[|y| - 1])
  {
    var n := |y| - 1;
    var y', z' := y[..n], z[..n];
    if n == 0 {
      AbelStep(0.0, 0.0, y[n], v, z[n], z[n]);
    } else {
      BlockGap(y', v, z');
      AbelStep(Gap(y', v, z'), Excess(y', v), y[n], v, z[n - 1], z[n]);
    }
  }

  lemma BlockOptimal(block: seq<real>, v: real, z: seq<real>)
    requires Pooled(block, v) && |z| == |block| && Nondecreasing(z)
    ensures SquaredError(block, z)
            >= SquaredError(block, Repeat(v, |block|)) + SquaredError(Repeat(v, |block|), z)
  {
    BlockGap(block, v, z);
    GapIsExtraError(block, v, z, Repeat(v, |block|));
  }

  // --------------------------------------------------------------------------
  // The stack of blocks
  // --------------------------------------------------------------------------

  ghost function Flatten(blocks: seq<seq<real>>): seq<real> {
    if blocks == [] then [] else Flatten(blocks[..|blocks| - 1]) + blocks[|blocks| - 1]
  }

  /** Every value, repeated as often as its weight says: the fitted sequence. */
  function Expand(values: seq<real>, weights: seq<real>): seq<real>
    requires |values| == |weights|
  {
    if values == [] then []
    else
      var n := |values| - 1;
      var count := Round(weights[n]);
      Expand(values[..n], weights[..n]) + (if count > 0 then Repeat(values[n], count) else [])
  }

  /** The samples consumed so far are the blocks in order, one value and weight for each. */
  ghost predicate Represents(values: seq<real>, weights: seq<real>, blocks: seq<seq<real>>) {
    && |values| == |weights| == |blocks|
    && (forall k :: 0 <= k < |blocks| ==> Pooled(blocks[k], values[k]))
    && (forall k :: 0 <= k < |blocks| ==> weights[k] == |blocks[k]| as real)
  }

  lemma FlattenSnoc(blocks: seq<seq<real>>, b: seq<real>)
    ensures Flatten(blocks + [b]) == Flatten(blocks) + b
  {
    assert (blocks + [b])[..|blocks|] == blocks;
  }

  lemma {:induction false} SquaredErrorConcat(a: seq<real>, b: seq<real>, c: seq<real>, d: seq<real>)
    requires |a| == |c| && |b| == |d|
    ensures SquaredError(a + b, c + d) == SquaredError(a, c) + SquaredError(b, d)
  {
    if b == [] {
      assert a + b == a && c + d == c;
    } else {
      var n := |b| - 1;
      assert (a + b)[..|a + b| - 1] == a + b[..n];
      assert (c + d)[..|c + d| - 1] == c + d[..n];
      SquaredErrorConcat(a, b[..n], c, d[..n]);
    }
  }

  lemma {:induction false} SumFromExcess(s: seq<real>, v: real)
    ensures Sum(s) == Excess(s, v) + Sum(Repeat(v, |s|))
  {
    if s != [] {
      assert Repeat(v, |s|)[..|s| - 1] == Repeat(v, |s| - 1);
      SumFromExcess(s[..|s| - 1], v);
    }
  }

  /** What the last block contributes to the samples and to the fitted sequence. */
  lemma PeelBlock(values: seq<real>, weights: seq<real>, blocks: seq<seq<real>>)
    requires Represents(values, weights, blocks) && blocks != []
    ensures var n := |blocks| - 1;
            && Represents(values[..n], weights[..n], blocks[..n])
            && Flatten(blocks) == Flatten(blocks[..n]) + blocks[n]
            && Expand(values, weights)
               == Expand(values[..n], weights[..n]) + Repeat(values[n], |blocks[n]|)
  {
    var n := |blocks| - 1;
    assert Round(weights[n]) == |blocks[n]|;
  }

  lemma {:induction false} ExpandPreservesSum(values: seq<real>, weights: seq<real>, blocks: seq<seq<real>>)
    requires Represents(values, weights, blocks)
    ensures |Expand(values, weights)| == |Flatten(blocks)|
    ensures Sum(Expand(values, weights)) == Sum(Flatten(blocks))
  {
    if blocks != [] {
      var n := |blocks| - 1;
      PeelBlock(values, weights, blocks);
      ExpandPreservesSum(values[..n], weights[..n], blocks[..n]);
      SumFromExcess(blocks[n], values[n]);
      SumConcat(Flatten(blocks[..n]), blocks[n]);
      SumConcat(Expand(values[..n], weights[..n]), Repeat(values[n], |blocks[n]|));
    }
  }

  lemma {:induction false} ExpandNondecreasing(values: seq<real>, weights: seq<real>, blocks: seq<seq<real>>)
    requires Represents(values, weights, blocks) && Nondecreasing(values)
    ensures Nondecreasing(Expand(values, weights))
    ensures forall i :: 0 <= i < |Expand(values, weights)| ==>
              Expand(values, weights)[i] <= values[|values| - 1]
  {
    if blocks != [] {
      var n := |blocks| - 1;
      PeelBlock(values, weights, blocks);
      ExpandNondecreasing(values[..n], weights[..n], blocks[..n]);
    }
  }

  /** Every nondecreasing sequence is at least as far from the samples as the fit is,
      and farther by at least its squared distance to the fit. */
  lemma {:induction false} ExpandOptimal(values: seq<real>, weights: seq<real>, blocks: seq<seq<real>>,
                                         z: seq<real>)
    requires Represents(values, weights, blocks)
    requires |z| == |Flatten(blocks)| == |Expand(values, weights)| && Nondecreasing(z)
    ensures SquaredError(Flatten(blocks), z)
            >= SquaredError(Flatten(blocks), Expand(values, weights)) + SquaredError(Expand(values, weights), z)
  {
    if blocks != [] {
      var n := |blocks| - 1;
      PeelBlock(values, weights, blocks);
      var before, fitBefore := Flatten(blocks[..n]), Expand(values[..n], weights[..n]);
      var last, fitLast := blocks[n], Repeat(values[n], |blocks[n]|);
      ExpandPreservesSum(values[..n], weights[..n], blocks[..n]);
      var z0, z1 := z[..|before|], z[|before|..];
      assert z == z0 + z1;
      ExpandOptimal(values[..n], weights[..n], blocks[..n], z0);
      BlockOptimal(last, values[n], z1);
      SquaredErrorConcat(before, last, z0, z1);
      SquaredErrorConcat(before, last, fitBefore, fitLast);
      SquaredErrorConcat(fitBefore, fitLast, z0, z1);
    }
  }

  /** The stack, with the top block pushed but the violators on top not yet pooled. */
  ghost predicate Stack(values: seq<real>, weights: seq<real>, blocks: seq<seq<real>>, samples: seq<real>) {
    && Represents(values, weights, blocks)
    && Flatten(blocks) == samples
    && blocks != []
    && Nondecreasing(values[..|values| - 1])
  }

  lemma StackPush(values: seq<real>, weights: seq<real>, blocks: seq<seq<real>>, samples: seq<real>, y: real)
    requires Represents(values, weights, blocks) && Flatten(blocks) == samples && Nondecreasing(values)
    ensures Stack(values + [y], weights + [1.0], blocks + [[y]], samples + [y])
  {
    assert [y][..0] == [];
    assert Pooled([y], y);
    FlattenSnoc(blocks, [y]);
    assert (values + [y])[..|values|] == values;
  }

  lemma StackPool(values: seq<real>, weights: seq<real>, blocks: seq<seq<real>>, samples: seq<real>, v: real)
    requires Stack(values, weights, blocks, samples) && |values| > 1
    requires var n := |values| - 2;
             && values[n] > values[n + 1]
             && v == WeightedAverage(values[n], weights[n], values[n + 1], weights[n + 1])
    ensures var n := |values| - 2;
            Stack(values[..n] + [v], weights[..n] + [weights[n] + weights[n + 1]],
                  blocks[..n] + [blocks[n] + blocks[n + 1]], samples)
  {
    var n := |values| - 2;
    PoolViolators(blocks[n], blocks[n + 1], values[n], values[n + 1], v);
    assert blocks == blocks[..n] + [blocks[n]] + [blocks[n + 1]];
    FlattenSnoc(blocks[..n] + [blocks[n]], blocks[n + 1]);
    FlattenSnoc(blocks[..n], blocks[n]);
    FlattenSnoc(blocks[..n], blocks[n] + blocks[n + 1]);
    assert (values[..n] + [v])[..n] == values[..n];
  }

  // --------------------------------------------------------------------------
  // The fit
  // --------------------------------------------------------------------------

  /** f is the isotonic regression of y: it beats every nondecreasing sequence, and
      strictly so unless the sequence is f itself (see RegressionIsUnique). */
  ghost predicate IsotonicRegression(y: seq<real>, f: seq<real>) {
    && |f| == |y|
    && Nondecreasing(f)
    && Sum(f) == Sum(y)
    && forall z: seq<real> :: |z| == |y| && Nondecreasing(z) ==>
         SquaredError(y, z) >= SquaredError(y, f) + SquaredError(f, z)
  }

  lemma SquarePositive(d: real)
    requires d != 0.0
    ensures Square(d) > 0.0
  {
    var k := 1.0 / d;
    assert d * k == 1.0;
    assert Square(d) * k == d;
  }

  lemma {:induction false} ZeroErrorMeansEqual(a: seq<real>, b: seq<real>)
    requires |a| == |b| && SquaredError(a, b) == 0.0
    ensures a == b
  {
    if a != [] {
      var n := |a| - 1;
      var d := a[n] - b[n];
      if d != 0.0 {
        SquarePositive(d);
      }
      ZeroErrorMeansEqual(a[..n], b[..n]);
      assert a == a[..n] + [a[n]] && b == b[..n] + [b[n]];
    }
  }

  /** A nondecreasing sequence that is no worse than the regression is the regression. */
  lemma RegressionIsUnique(y: seq<real>, f: seq<real>, z: seq<real>)
    requires IsotonicRegression(y, f)
    requires |z| == |y| && Nondecreasing(z) && SquaredError(y, z) <= SquaredError(y, f)
    ensures z == f
  {
    ZeroErrorMeansEqual(f, z);
  }

  /** The pooling loop: push each sample as a block of weight one, then pool the two top
      blocks for as long as they are out of order. */
  method PoolAdjacentViolators(ys: seq<real>)
    returns (values: seq<real>, weights: seq<real>, ghost blocks: seq<seq<real>>)
    ensures Represents(values, weights, blocks) && Flatten(blocks) == ys && Nondecreasing(values)
  {
    values, weights, blocks := [], [], [];
    for i := 0 to |ys|
      invariant Represents(values, weights, blocks) && Flatten(blocks) == ys[..i] && Nondecreasing(values)
    {
      StackPush(values, weights, blocks, ys[..i], ys[i]);
      assert ys[..i] + [ys[i]] == ys[..i + 1];
      values, weights, blocks := values + [ys[i]], weights + [1.0], blocks + [[ys[i]]];
      while |values| > 1 && values[|values| - 2] > values[|values| - 1]
        invariant Stack(values, weights, blocks, ys[..i + 1])
        decreases |values|
      {
        var n := |values| - 2;
        assert weights[n] == |blocks[n]| as real && weights[n + 1] == |blocks[n + 1]| as real;
        var v := WeightedAverage(values[n], weights[n], values[n + 1], weights[n + 1]);
        StackPool(values, weights, blocks, ys[..i + 1], v);
        values, weights, blocks := values[..n] + [v], weights[..n] + [weights[n] + weights[n + 1]],
                                   blocks[..n] + [blocks[n] + blocks[n + 1]];
      }
      NondecreasingExtend(values);
    }
    assert ys[..|ys|] == ys;
  }

  lemma NondecreasingExtend(values: seq<real>)
    requires values != [] && Nondecreasing(values[..|values| - 1])
    requires |values| > 1 ==> values[|values| - 2] <= values[|values| - 1]
    ensures Nondecreasing(values)
  {
    var init := values[..|values| - 1];
    forall i, j | 0 <= i <= j < |values|
      ensures values[i] <= values[j]
    {
      if i < j == |values| - 1 {
        assert init[i] <= init[j - 1];
      } else if j < |values| - 1 {
        assert init[i] <= init[j];
      }
    }
  }

  /** The expansion loop: one fitted value per sample. */
  method ExpandBlocks(values: seq<real>, weights: seq<real>) returns (fitted: seq<real>)
    requires |values| == |weights|
    ensures fitted == Expand(values, weights)
  {
    fitted := [];
    for k := 0 to |values|
      invariant fitted == Expand(values[..k], weights[..k])
    {
      var count := Round(weights[k]);
      fitted := fitted + (if count > 0 then Repeat(values[k], count) else []);
      assert values[..k + 1][..k] == values[..k] && weights[..k + 1][..k] == weights[..k];
    }
    assert values[..|values|] == values && weights[..|values|] == weights;
  }

  lemma ExpandIsRegression(values: seq<real>, weights: seq<real>, blocks: seq<seq<real>>)
    requires Represents(values, weights, blocks) && Nondecreasing(values)
    ensures IsotonicRegression(Flatten(blocks), Expand(values, weights))
  {
    ExpandPreservesSum(values, weights, blocks);
    ExpandNondecreasing(values, weights, blocks);
    forall z: seq<real> | |z| == |Flatten(blocks)| && Nondecreasing(z)
      ensures SquaredError(Flatten(blocks), z)
              >= SquaredError(Flatten(blocks), Expand(values, weights)) + SquaredError(Expand(values, weights), z)
    {
      ExpandOptimal(values, weights, blocks, z);
    }
  }

  lemma GatherSorted(x: seq<real>, order: seq<nat>)
    requires SortsIndices(order, x)
    ensures Nondecreasing(Gather(x, order))
  {
    var g := Gather(x, order);
    forall i, j | 0 <= i <= j < |g|
      ensures g[i] <= g[j]
    {
      assert i < j ==> x[order[i]] <= x[order[j]];
    }
  }

  lemma EmptyRegression()
    ensures IsotonicRegression([], [])
  {
  }

  /** order is what the argsort of x returned; numpy leaves the order of equal x open. */
  method IsotonicFit(x: seq<real>, y: seq<real>, order: seq<nat>) returns (model: IsotonicModel)
    requires |x| <= |y| && SortsIndices(order, x)
    ensures model.x == Gather(x, order) && Nondecreasing(model.x)
    ensures IsotonicRegression(Gather(y, order), model.y)
  {
    var xs, ys := Gather(x, order), Gather(y, order);
    GatherSorted(x, order);
    if |x| == 0 {
      assert ys == [];
      EmptyRegression();
      return IsotonicModel([], []);
    }
    var values, weights, blocks := PoolAdjacentViolators(ys);
    var fitted := ExpandBlocks(values, weights);
    ExpandIsRegression(values, weights, blocks);
    assert fitted[..|xs|] == fitted;
    model := IsotonicModel(xs, fitted[..|xs|]);
  }
}
