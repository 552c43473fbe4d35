/** Node impurity and leaf values of the CART tree (DecisionTree.cpp):
    population variance from running sums for regression, Gini impurity over
    an ascending label -> count table for classification, and the weighted
    impurity decrease of a split. These are the specification functions the
    DecisionTree class's methods are proved against. */
module Impurity {
  import opened Numeric
  import opened Variance

  // ---------------------------------------------------------------------------
  // Classification: Gini impurity
  // ---------------------------------------------------------------------------

  /** Sum of (count / n)^2 over `keys`, accumulated in the order of `keys`. */
  ghost function SquaredShares(counts: map<real, nat>, keys: seq<real>, n: real): real
    requires n > 0.0
    requires forall j :: 0 <= j < |keys| ==> keys[j] in counts
  {
    if |keys| == 0 then 0.0
    else
      var p := (counts[keys[0]] as real) / n;
      p * p + SquaredShares(counts, keys[1..], n)
  }

  /** computeGini: 0 for no values, else 1 - sum of squared label shares,
      the labels visited in ascending order as a std::map<double,int> does. */
  ghost function Gini(vals: seq<real>): real
  {
    if |vals| == 0 then 0.0
    else
      var counts := CountMap(vals);
      1.0 - SquaredShares(counts, SortedReals(counts.Keys), |vals| as real)
  }

  /** Number of positions of `vals` whose value is one of `keys`. */
  function CountIn(vals: seq<real>, keys: seq<real>): nat
  {
    if |vals| == 0 then 0
    else CountIn(vals[..|vals| - 1], keys) + (if vals[|vals| - 1] in keys then 1 else 0)
  }

  /** Total of the counts listed under `keys`. */
  function CountTotal(counts: map<real, nat>, keys: seq<real>): nat
    requires forall j :: 0 <= j < |keys| ==> keys[j] in counts
  {
    if |keys| == 0 then 0 else counts[keys[0]] + CountTotal(counts, keys[1..])
  }

  lemma {:induction false} CountInCons(vals: seq<real>, k: real, rest: seq<real>)
    requires k !in rest
    ensures CountIn(vals, [k] + rest) == Count(vals, k) + CountIn(vals, rest)
  {
    if |vals| > 0 {
      var y := vals[|vals| - 1];
      CountInCons(vals[..|vals| - 1], k, rest);
      assert y in [k] + rest <==> y == k || y in rest;
    }
  }

  lemma {:induction false} CountInAll(vals: seq<real>, keys: seq<real>)
    requires forall x :: x in vals ==> x in keys
    ensures CountIn(vals, keys) == |vals|
  {
    if |vals| > 0 {
      var v', y := vals[..|vals| - 1], vals[|vals| - 1];
      assert forall x :: x in v' ==> x in vals;
      CountInAll(v', keys);
      assert y in vals;
      assert y in keys;
      assert CountIn(vals, keys) == CountIn(v', keys) + 1;
    }
  }

  /** Over distinct keys, the listed counts add up to the positions they cover. */
  lemma {:induction false} CountTotalIsCountIn(vals: seq<real>, keys: seq<real>)
    requires forall i, j :: 0 <= i < j < |keys| ==> keys[i] < keys[j]
    requires forall j :: 0 <= j < |keys| ==> keys[j] in CountMap(vals)
    ensures CountTotal(CountMap(vals), keys) == CountIn(vals, keys)
  {
    if |keys| == 0 {
      CountInEmpty(vals, keys);
    } else {
      var rest := keys[1..];
      assert forall i, j :: 0 <= i < j < |rest| ==> rest[i] < rest[j] by {
        forall i, j | 0 <= i < j < |rest| ensures rest[i] < rest[j] {
          assert rest[i] == keys[i + 1] && rest[j] == keys[j + 1];
        }
      }
      assert keys[0] !in rest by {
        forall j | 0 <= j < |rest| ensures rest[j] != keys[0] {
          assert rest[j] == keys[j + 1];
        }
      }
      CountTotalIsCountIn(vals, rest);
      assert keys == [keys[0]] + rest;
      CountInCons(vals, keys[0], rest);
    }
  }

  lemma {:induction false} CountInEmpty(vals: seq<real>, keys: seq<real>)
    requires |keys| == 0
    ensures CountIn(vals, keys) == 0
  {
    if |vals| > 0 {
      CountInEmpty(vals[..|vals| - 1], keys);
    }
  }

  /** One step of SquaredSharesBound on plain reals: with shares c0/n and
      cRest/n, (c0/n)^2 + rest <= ((c0 + cRest)/n)^2 when rest <= (cRest/n)^2. */
  lemma ShareStepAlgebra(sh: real, shRest: real, c0: real, cRest: real, cTot: real, n: real)
    requires n > 0.0 && c0 >= 0.0 && cRest >= 0.0 && cTot == c0 + cRest
    requires sh == (c0 / n) * (c0 / n) + shRest
    requires shRest <= (cRest / n) * (cRest / n)
    ensures sh <= (cTot / n) * (cTot / n)
  {
    var a, b := c0 / n, cRest / n;
    assert cTot / n == a + b;
    assert a * b >= 0.0;
    assert (a + b) * (a + b) == a * a + 2.0 * (a * b) + b * b;
  }

  /** sum p_k^2 <= (sum p_k)^2 for non-negative shares. */
  lemma {:induction false} SquaredSharesBound(counts: map<real, nat>, keys: seq<real>, n: real)
    requires n > 0.0
    requires forall j :: 0 <= j < |keys| ==> keys[j] in counts
    ensures SquaredShares(counts, keys, n) <= (CountTotal(counts, keys) as real / n) * (CountTotal(counts, keys) as real / n)
  {
    if |keys| > 0 {
      var rest := keys[1..];
      SquaredSharesBound(counts, rest, n);
      ShareStepAlgebra(SquaredShares(counts, keys, n), SquaredShares(counts, rest, n),
                       counts[keys[0]] as real, CountTotal(counts, rest) as real, CountTotal(counts, keys) as real, n);
    }
  }

  lemma {:induction false} SquaredSharesNonneg(counts: map<real, nat>, keys: seq<real>, n: real)
    requires n > 0.0
    requires forall j :: 0 <= j < |keys| ==> keys[j] in counts
    ensures SquaredShares(counts, keys, n) >= 0.0
  {
    if |keys| > 0 {
      SquaredSharesNonneg(counts, keys[1..], n);
      SquareNonneg((counts[keys[0]] as real) / n);
    }
  }

  /** The counts of all distinct labels add up to the number of values. */
  lemma CountTotalOfLabels(vals: seq<real>)
    ensures var counts := CountMap(vals);
      CountTotal(counts, SortedReals(counts.Keys)) == |vals|
  {
    var counts := CountMap(vals);
    var keys := SortedReals(counts.Keys);
    SortedRealsIncreasing(counts.Keys);
    forall j | 0 <= j < |keys| ensures keys[j] in counts {
      assert keys[j] in keys;
    }
    forall x | x in vals ensures x in keys {
      assert x in counts.Keys;
    }
    CountTotalIsCountIn(vals, keys);
    CountInAll(vals, keys);
  }

  lemma GiniAlgebra(sh: real, t: real, n: real)
    requires n > 0.0 && t == n && 0.0 <= sh <= (t / n) * (t / n)
    ensures 0.0 <= 1.0 - sh <= 1.0
  {
    assert t / n == 1.0;
  }

  lemma SharesBounds(counts: map<real, nat>, keys: seq<real>, n: real)
    requires n > 0.0
    requires forall j :: 0 <= j < |keys| ==> keys[j] in counts
    requires CountTotal(counts, keys) as real == n
    ensures 0.0 <= 1.0 - SquaredShares(counts, keys, n) <= 1.0
  {
    SquaredSharesBound(counts, keys, n);
    SquaredSharesNonneg(counts, keys, n);
    GiniAlgebra(SquaredShares(counts, keys, n), CountTotal(counts, keys) as real, n);
  }

  /** Gini impurity lies in [0, 1]. */
  lemma GiniBounds(vals: seq<real>)
    ensures 0.0 <= Gini(vals) <= 1.0
  {
    if |vals| > 0 {
      CountTotalOfLabels(vals);
      var counts := CountMap(vals);
      SharesBounds(counts, SortedReals(counts.Keys), |vals| as real);
    }
  }

  lemma PureAlgebra(sh: real, c: real, n: real, rest: real)
    requires n > 0.0 && c == n && rest == 0.0 && sh == (c / n) * (c / n) + rest
    ensures sh == 1.0
  {
    assert c / n == 1.0;
  }

  /** A pure node (every value equal) has Gini impurity 0. */
  lemma GiniOfPure(vals: seq<real>, c: real)
    requires |vals| > 0
    requires forall k :: 0 <= k < |vals| ==> vals[k] == c
    ensures Gini(vals) == 0.0
  {
    var counts := CountMap(vals);
    assert counts.Keys == {c} by {
      assert vals[0] in vals;
      forall x | x in counts.Keys ensures x == c {
        var k :| 0 <= k < |vals| && vals[k] == x;
      }
    }
    var keys := SortedReals(counts.Keys);
    assert keys == [c] by {
      assert |keys| == 1;
      assert keys[0] in counts.Keys;
    }
    CountTotalIsCountIn(vals, keys);
    CountInAll(vals, keys);
    assert counts[c] == |vals|;
    assert keys[1..] == [];
    var n := |vals| as real;
    PureAlgebra(SquaredShares(counts, keys, n), counts[keys[0]] as real, n, SquaredShares(counts, keys[1..], n));
  }

  // ---------------------------------------------------------------------------
  // Leaf values
  // ---------------------------------------------------------------------------

  /** The classification leaf value: the first key in ascending order whose
      count beats every earlier one (strict `>` from -1). */
  ghost function Mode(vals: seq<real>): real
    requires |vals| > 0
  {
    var counts := CountMap(vals);
    ScanMax(counts, SortedReals(counts.Keys), vals[0], -1)
  }

  /** The scan from (vals[0], -1) over labels that all have a positive count
      always lands on one of them: the first one holding the largest count. */
  lemma ScanMaxIndex(vals: seq<real>, counts: map<real, nat>, keys: seq<real>) returns (i: nat)
    requires |vals| > 0
    requires forall j :: 0 <= j < |keys| ==> keys[j] in counts
    requires exists k :: 0 <= k < |keys| && counts[keys[k]] > -1
    ensures i < |keys| && keys[i] == ScanMax(counts, keys, vals[0], -1)
    ensures forall j :: 0 <= j < |keys| ==> counts[keys[j]] <= counts[keys[i]]
    ensures forall j :: 0 <= j < i ==> counts[keys[j]] < counts[keys[i]]
  {
    ScanMaxSpec(counts, keys, vals[0], -1);
    var r := ScanMax(counts, keys, vals[0], -1);
    i :| 0 <= i < |keys| && keys[i] == r && -1 < counts[r] &&
      (forall j :: 0 <= j < |keys| ==> counts[keys[j]] <= counts[r]) &&
      (forall j :: 0 <= j < i ==> counts[keys[j]] < counts[r]);
  }

  /** In a strictly increasing sequence, a smaller value sits at a smaller index. */
  lemma IncreasingIndexOrder(keys: seq<real>, j: nat, i: nat)
    requires forall a, b :: 0 <= a < b < |keys| ==> keys[a] < keys[b]
    requires j < |keys| && i < |keys| && keys[j] < keys[i]
    ensures j < i
  {
  }

  /** ScanMax over the ascending distinct labels of `vals`, stated on the
      label sequence alone. */
  lemma ScanMaxOfLabels(vals: seq<real>, counts: map<real, nat>, keys: seq<real>)
    requires |vals| > 0
    requires forall j :: 0 <= j < |keys| ==> keys[j] in counts && counts[keys[j]] == Count(vals, keys[j])
    requires forall j :: 0 <= j < |keys| ==> keys[j] in vals
    requires forall x :: x in vals ==> x in keys
    requires forall i, j :: 0 <= i < j < |keys| ==> keys[i] < keys[j]
    ensures var r := ScanMax(counts, keys, vals[0], -1);
      r in vals &&
      (forall y :: Count(vals, y) <= Count(vals, r)) &&
      (forall y :: y in vals && y < r ==> Count(vals, y) < Count(vals, r))
  {
    var first := vals[0];
    assert first in vals;
    assert first in keys;
    var k :| 0 <= k < |keys| && keys[k] == first;
    assert counts[keys[k]] > -1;
    var i := ScanMaxIndex(vals, counts, keys);
    var r := keys[i];
    forall y ensures Count(vals, y) <= Count(vals, r) {
      CountBounds(vals, y);
      if y in vals {
        assert y in keys;
        var j :| 0 <= j < |keys| && keys[j] == y;
        assert counts[keys[j]] <= counts[r];
      }
    }
    forall y | y in vals && y < r ensures Count(vals, y) < Count(vals, r) {
      assert y in keys;
      var j :| 0 <= j < |keys| && keys[j] == y;
      IncreasingIndexOrder(keys, j, i);
      assert counts[keys[j]] < counts[r];
    }
  }

  /** The mode is a most frequent value, and every smaller value is strictly
      less frequent: ties go to the smallest value. */
  lemma ModeIsSmallestMostFrequent(vals: seq<real>)
    requires |vals| > 0
    ensures Mode(vals) in vals
    ensures forall y :: Count(vals, y) <= Count(vals, Mode(vals))
    ensures forall y :: y in vals && y < Mode(vals) ==> Count(vals, y) < Count(vals, Mode(vals))
  {
    var counts := CountMap(vals);
    var keys := SortedReals(counts.Keys);
    SortedRealsIncreasing(counts.Keys);
    forall j | 0 <= j < |keys| ensures keys[j] in counts && counts[keys[j]] == Count(vals, keys[j]) && keys[j] in vals {
      assert keys[j] in keys;
    }
    forall x | x in vals ensures x in keys {
      assert x in counts.Keys;
    }
    ScanMaxOfLabels(vals, counts, keys);
  }

  /** makeLeaf's value: 0 for no samples, the mode for classification and the
      arithmetic mean for regression. */
  ghost function LeafValue(isClassification: bool, vals: seq<real>): real
  {
    if |vals| == 0 then 0.0
    else if isClassification then Mode(vals)
    else Mean(vals)
  }

  /** Every leaf value of a pure sample set is that value. */
  lemma LeafValueOfPure(isClassification: bool, vals: seq<real>, c: real)
    requires |vals| > 0
    requires forall k :: 0 <= k < |vals| ==> vals[k] == c
    ensures LeafValue(isClassification, vals) == c
  {
    if isClassification {
      ModeIsSmallestMostFrequent(vals);
      var k :| 0 <= k < |vals| && vals[k] == Mode(vals);
    } else {
      SumConst(vals, c);
    }
  }

  // ---------------------------------------------------------------------------
  // Impurity decrease of a split
  // ---------------------------------------------------------------------------

  /** The parent's impurity minus the size-weighted mean of the children's. */
  function Weighted(parentImp: real, nL: real, leftImp: real, nR: real, rightImp: real, nP: real): real
    requires nP != 0.0
  {
    parentImp - (nL * leftImp + nR * rightImp) / nP
  }

  /** impurityDecrease: 0 when either side is empty, otherwise the parent's
      impurity minus the size-weighted child impurities (Gini of the three
      index sets for classification, variance from the running sums for
      regression). */
  ghost function Decrease(isClassification: bool, nP: int, sumP: real, sumP2: real,
                          nL: int, sumL: real, sumL2: real, nR: int, sumR: real, sumR2: real,
                          valsP: seq<real>, valsL: seq<real>, valsR: seq<real>): real
    requires nP > 0
  {
    if nL == 0 || nR == 0 then 0.0
    else if isClassification then
      Weighted(Gini(valsP), nL as real, Gini(valsL), nR as real, Gini(valsR), nP as real)
    else
      Weighted(ComputeMse(nP, sumP, sumP2), nL as real, ComputeMse(nL, sumL, sumL2),
               nR as real, ComputeMse(nR, sumR, sumR2), nP as real)
  }
}
