/** ROC-AUC from rank sums (aimos/learning/model.py). */
module Model {
  import opened Numerics

  /** The entries of s whose label is v, as a boolean mask selects them. */
  function Select(s: seq<real>, labels: seq<int>, v: int): seq<real>
    requires |s| == |labels|
  {
    if s == [] then []
    else
      var n := |s| - 1;
      Select(s[..n], labels[..n], v) + (if labels[n] == v then [s[n]] else [])
  }

  ghost function Labelled(labels: seq<int>, v: int): set<nat> {
    set i: nat | i < |labels| && labels[i] == v
  }

  /** The pairs (positive, other sample) in which the positive is ranked higher. */
  ghost function RankedPairs(order: seq<nat>, labels: seq<int>, m: nat): set<(nat, nat)>
    requires m <= |order| && forall k :: 0 <= k < |order| ==> order[k] < |labels|
  {
    set a: nat, b: nat | a < m && b < a && labels[order[a]] == 1 && labels[order[b]] != 1 :: (order[a], order[b])
  }

  /** The pairs (positive, negative) in which the positive has the greater score. */
  ghost function StrictPairs(scores: seq<real>, labels: seq<int>): set<(nat, nat)>
    requires |scores| == |labels|
  {
    set i: nat, j: nat | i < |labels| && j < |labels| && labels[i] == 1 && labels[j] == 0 && scores[j] < scores[i]
      :: (i, j)
  }

  /** The same, counting ties. */
  ghost function WeakPairs(scores: seq<real>, labels: seq<int>): set<(nat, nat)>
    requires |scores| == |labels|
  {
    set i: nat, j: nat | i < |labels| && j < |labels| && labels[i] == 1 && labels[j] == 0 && scores[j] <= scores[i]
      :: (i, j)
  }

  ghost predicate BinaryLabels(labels: seq<int>) {
    forall i :: 0 <= i < |labels| ==> labels[i] == 0 || labels[i] == 1
  }

  // --------------------------------------------------------------------------
  // The rank sum, along the sorted order
  // --------------------------------------------------------------------------

  /** ranks is what assigning 1, 2, ... along the order leaves behind. */
  ghost predicate RanksAlong(ranks: seq<real>, order: seq<nat>) {
    && |ranks| == |order|
    && forall k :: 0 <= k < |order| ==> order[k] < |ranks| && ranks[order[k]] == (k + 1) as real
  }

  ghost function Masked(ranks: seq<real>, labels: seq<int>): (s: seq<real>)
    requires |ranks| == |labels|
    ensures |s| == |ranks|
  {
    seq(|ranks|, i requires 0 <= i < |ranks| => if labels[i] == 1 then ranks[i] else 0.0)
  }

  lemma {:induction false} SelectSum(ranks: seq<real>, labels: seq<int>)
    requires |ranks| == |labels|
    ensures Sum(Select(ranks, labels, 1)) == Sum(Masked(ranks, labels))
  {
    if ranks != [] {
      var n := |ranks| - 1;
      SelectSum(ranks[..n], labels[..n]);
      assert Masked(ranks, labels)[..n] == Masked(ranks[..n], labels[..n]);
      if labels[n] == 1 {
      } else {
        assert Select(ranks[..n], labels[..n], 1) + [] == Select(ranks[..n], labels[..n], 1);
      }
    }
  }

  lemma {:induction false} SelectCount(s: seq<real>, labels: seq<int>, v: int)
    requires |s| == |labels|
    ensures |Select(s, labels, v)| == |Labelled(labels, v)|
  {
    if s == [] {
      assert Labelled(labels, v) == {};
    } else {
      var n := |s| - 1;
      SelectCount(s[..n], labels[..n], v);
      var before := Labelled(labels[..n], v);
      assert Labelled(labels, v) == before + (if labels[n] == v then {n} else {});
      assert n !in before;
    }
  }

  /** The masked ranks of the first m samples of the order, zero elsewhere. */
  ghost function Scatter(order: seq<nat>, labels: seq<int>, m: nat): (s: seq<real>)
    requires m <= |order| && forall k :: 0 <= k < |order| ==> order[k] < |labels|
    ensures |s| == |labels|
  {
    if m == 0 then seq(|labels|, _ => 0.0)
    else
      Scatter(order, labels, m - 1)[order[m - 1] := if labels[order[m - 1]] == 1 then m as real else 0.0]
  }

  lemma {:induction false} SumUpdate(s: seq<real>, i: nat, v: real)
    requires i < |s|
    ensures Sum(s[i := v]) == Sum(s) - s[i] + v
  {
    var n := |s| - 1;
    if i == n {
      assert s[i := v][..n] == s[..n];
    } else {
      SumUpdate(s[..n], i, v);
      assert s[i := v][..n] == s[..n][i := v];
    }
  }

  lemma {:induction false} SumZeros(n: nat)
    ensures Sum(seq(n, _ => 0.0)) == 0.0
  {
    if n > 0 {
      assert seq(n, _ => 0.0)[..n - 1] == seq(n - 1, _ => 0.0);
      SumZeros(n - 1);
    }
  }

  lemma {:induction false} ScatterEntries(order: seq<nat>, labels: seq<int>, m: nat, k: nat)
    requires m <= |order| && k < |order|
    requires forall k :: 0 <= k < |order| ==> order[k] < |labels|
    requires forall j, k :: 0 <= j < k < |order| ==> order[j] != order[k]
    ensures Scatter(order, labels, m)[order[k]]
            == if k < m && labels[order[k]] == 1 then (k + 1) as real else 0.0
  {
    if m > 0 {
      ScatterEntries(order, labels, m - 1, k);
    }
  }

  /** Of the first m samples of the order: the positives, and all others. */
  ghost function Positives(order: seq<nat>, labels: seq<int>, m: nat): set<nat>
    requires m <= |order| && forall k :: 0 <= k < |order| ==> order[k] < |labels|
  {
    set k: nat | k < m && labels[order[k]] == 1 :: order[k]
  }

  ghost function Others(order: seq<nat>, labels: seq<int>, m: nat): set<nat>
    requires m <= |order| && forall k :: 0 <= k < |order| ==> order[k] < |labels|
  {
    set k: nat | k < m && labels[order[k]] != 1 :: order[k]
  }

  ghost predicate Ordering(order: seq<nat>, labels: seq<int>) {
    && (forall k :: 0 <= k < |order| ==> order[k] < |labels|)
    && (forall j, k :: 0 <= j < k < |order| ==> order[j] != order[k])
  }

  lemma NextPositive(order: seq<nat>, labels: seq<int>, m: nat)
    requires m < |order| && Ordering(order, labels)
    ensures |Positives(order, labels, m + 1)|
            == |Positives(order, labels, m)| + (if labels[order[m]] == 1 then 1 else 0)
  {
    var before := Positives(order, labels, m);
    assert Positives(order, labels, m + 1) == before + (if labels[order[m]] == 1 then {order[m]} else {});
    assert order[m] !in before;
  }

  lemma NextOther(order: seq<nat>, labels: seq<int>, m: nat)
    requires m < |order| && Ordering(order, labels)
    ensures |Others(order, labels, m + 1)|
            == |Others(order, labels, m)| + (if labels[order[m]] == 1 then 0 else 1)
  {
    var before := Others(order, labels, m);
    assert Others(order, labels, m + 1) == before + (if labels[order[m]] == 1 then {} else {order[m]});
    assert order[m] !in before;
  }

  /** A positive is ranked above exactly the others already seen. */
  lemma NextPairs(order: seq<nat>, labels: seq<int>, m: nat)
    requires m < |order| && Ordering(order, labels)
    ensures |RankedPairs(order, labels, m + 1)|
            == |RankedPairs(order, labels, m)|
               + (if labels[order[m]] == 1 then |Others(order, labels, m)| else 0)
  {
    var before, after := RankedPairs(order, labels, m), RankedPairs(order, labels, m + 1);
    if labels[order[m]] == 1 {
      var row := Row(order[m], Others(order, labels, m));
      forall pair | pair in after
        ensures pair in before || pair in row
      {
        var a: nat, b: nat :| a < m + 1 && b < a && labels[order[a]] == 1 && labels[order[b]] != 1
                              && (order[a], order[b]) == pair;
        if a == m {
          assert order[b] in Others(order, labels, m);
        }
      }
      assert after == before + row;
      assert before !! row;
      RowCardinality(order[m], Others(order, labels, m));
    } else {
      assert after == before;
    }
  }

  /** 1 + 2 + ... + p. */
  function Triangle(p: nat): nat {
    if p == 0 then 0 else Triangle(p - 1) + p
  }

  lemma {:induction false} TriangleFormula(p: nat)
    ensures 2 * Triangle(p) == p * (p + 1)
  {
    if p > 0 {
      TriangleFormula(p - 1);
      assert p * (p + 1) == (p - 1) * p + 2 * p;
    }
  }

  /** The rank-sum identity over the first m samples of the order. */
  lemma {:induction false} RankSumPrefix(order: seq<nat>, labels: seq<int>, m: nat)
    requires m <= |order| && Ordering(order, labels)
    ensures |Positives(order, labels, m)| + |Others(order, labels, m)| == m
    ensures Sum(Scatter(order, labels, m))
            == (Triangle(|Positives(order, labels, m)|) + |RankedPairs(order, labels, m)|) as real
  {
    if m == 0 {
      SumZeros(|labels|);
      assert RankedPairs(order, labels, m) == {};
    } else {
      var k := m - 1;
      var before := Scatter(order, labels, k);
      RankSumPrefix(order, labels, k);
      ScatterEntries(order, labels, k, k);
      SumUpdate(before, order[k], if labels[order[k]] == 1 then m as real else 0.0);
      NextPositive(order, labels, k);
      NextOther(order, labels, k);
      NextPairs(order, labels, k);
    }
  }

  /** Mann-Whitney: the ranks of the positives, less the ranks they would have among
      themselves, count the pairs in which a positive is ranked above another sample. */
  lemma RankSumIdentity(scores: seq<real>, labels: seq<int>, order: seq<nat>, ranks: seq<real>)
    requires |scores| == |labels| && SortsIndices(order, scores) && RanksAlong(ranks, order)
    ensures var p := |Labelled(labels, 1)|;
            Sum(Select(ranks, labels, 1)) - (p * (p + 1)) as real / 2.0
            == |RankedPairs(order, labels, |order|)| as real
  {
    var n := |order|;
    RankSumPrefix(order, labels, n);
    forall i: nat | i in Labelled(labels, 1)
      ensures i in Positives(order, labels, n)
    {
      assert i in order;
      var k :| 0 <= k < n && order[k] == i;
    }
    assert Positives(order, labels, n) == Labelled(labels, 1);
    TriangleFormula(|Labelled(labels, 1)|);
    SelectSum(ranks, labels);
    forall i: nat | i < n
      ensures Scatter(order, labels, n)[i] == Masked(ranks, labels)[i]
    {
      assert i in order;
      var k :| 0 <= k < n && order[k] == i;
      ScatterEntries(order, labels, n, k);
    }
    assert Scatter(order, labels, n) == Masked(ranks, labels);
  }

  // --------------------------------------------------------------------------
  // What the count means
  // --------------------------------------------------------------------------

  /** With 0/1 labels the count lies between the strict and the weak score comparisons. */
  lemma PairCountBounds(scores: seq<real>, labels: seq<int>, order: seq<nat>)
    requires |scores| == |labels| && SortsIndices(order, scores) && BinaryLabels(labels)
    ensures var u := RankedPairs(order, labels, |order|);
            && StrictPairs(scores, labels) <= u <= WeakPairs(scores, labels)
            && |StrictPairs(scores, labels)| <= |u| <= |WeakPairs(scores, labels)|
            && |u| <= |Labelled(labels, 1)| * |Labelled(labels, 0)|
  {
    var n := |order|;
    var u := RankedPairs(order, labels, n);
    forall i: nat, j: nat | (i, j) in StrictPairs(scores, labels)
      ensures (i, j) in u
    {
      assert i in order && j in order;
      var a :| 0 <= a < n && order[a] == i;
      var b :| 0 <= b < n && order[b] == j;
      assert b < a;
    }
    assert u <= Product(Labelled(labels, 1), Labelled(labels, 0));
    SubsetCardinality(StrictPairs(scores, labels), u);
    SubsetCardinality(u, WeakPairs(scores, labels));
    SubsetCardinality(u, Product(Labelled(labels, 1), Labelled(labels, 0)));
    ProductCardinality(Labelled(labels, 1), Labelled(labels, 0));
  }

  ghost predicate NoCrossTies(scores: seq<real>, labels: seq<int>)
    requires |scores| == |labels|
  {
    forall i, j :: 0 <= i < |labels| && 0 <= j < |labels| && labels[i] == 1 && labels[j] == 0 ==>
      scores[i] != scores[j]
  }

  /** Without ties across the classes the argsort has no say. */
  lemma PairCountExact(scores: seq<real>, labels: seq<int>, order: seq<nat>)
    requires |scores| == |labels| && SortsIndices(order, scores) && BinaryLabels(labels)
    requires NoCrossTies(scores, labels)
    ensures RankedPairs(order, labels, |order|) == StrictPairs(scores, labels)
  {
    PairCountBounds(scores, labels, order);
    assert WeakPairs(scores, labels) == StrictPairs(scores, labels);
  }

  /** order is what the argsort of the scores returned. */
  method Auc(scores: seq<real>, labels: seq<int>, order: seq<nat>) returns (auc: real)
    requires |scores| == |labels| && SortsIndices(order, scores)
    ensures var p, n := |Labelled(labels, 1)|, |Labelled(labels, 0)|;
            if p == 0 || n == 0 then auc == 0.5
            else auc == |RankedPairs(order, labels, |order|)| as real / (p * n) as real
    ensures BinaryLabels(labels) ==> 0.0 <= auc <= 1.0
  {
    var p, n := |Select(scores, labels, 1)|, |Select(scores, labels, 0)|;
    SelectCount(scores, labels, 1);
    SelectCount(scores, labels, 0);
    if p == 0 || n == 0 {
      return 0.5;
    }
    var ranks := new real[|order|];
    forall k | 0 <= k < |order| {
      ranks[order[k]] := (k + 1) as real;
    }
    RankSumIdentity(scores, labels, order, ranks[..]);
    var rankPos := Sum(Select(ranks[..], labels, 1));
    auc := (rankPos - (p * (p + 1)) as real / 2.0) / (p * n) as real;
    if BinaryLabels(labels) {
      PairCountBounds(scores, labels, order);
      UnitFraction(|RankedPairs(order, labels, |order|)|, p, n);
    }
  }

  lemma UnitFraction(u: nat, p: nat, n: nat)
    requires p > 0 && n > 0 && u <= p * n
    ensures p * n > 0 && 0.0 <= u as real / (p * n) as real <= 1.0
  {
  }
}
