/** Population variance from running sums (computeMSE in DecisionTree.cpp)
    and the facts about it the tree's impurity decrease needs. */
module Variance {
  import opened Numeric

  // ---------------------------------------------------------------------------
  // Regression: population variance
  // ---------------------------------------------------------------------------

  /** computeMSE: the population variance of `n` values given their sum and
      their sum of squares, and 0 for `n <= 0`. */
  function ComputeMse(n: int, sum: real, sum2: real): real
  {
    if n <= 0 then 0.0
    else
      var mean := sum / (n as real);
      sum2 / (n as real) - mean * mean
  }

  /** Sum of squared deviations of `v` from `m`: the textbook definition the
      running-sum formula is checked against. */
  function SqDev(v: seq<real>, m: real): real
  {
    if |v| == 0 then 0.0
    else
      var d := v[|v| - 1] - m;
      SqDev(v[..|v| - 1], m) + d * d
  }

  lemma SquareNonneg(d: real)
    ensures d * d >= 0.0
  {
  }

  lemma {:induction false} SqDevNonneg(v: seq<real>, m: real)
    ensures SqDev(v, m) >= 0.0
  {
    if |v| > 0 {
      SqDevNonneg(v[..|v| - 1], m);
      SquareNonneg(v[|v| - 1] - m);
    }
  }

  /** The algebra of one induction step of SqDevExpand, on plain reals:
      appending `x` to a sequence with squared deviation `d'`, sum of squares
      `q'`, sum `s'` and length `n'`. */
  lemma ExpandAlgebra(d: real, d': real, q: real, q': real, s: real, s': real, n: real, n': real, x: real, m: real)
    requires d == d' + (x - m) * (x - m)
    requires d' == q' - 2.0 * m * s' + n' * m * m
    requires q == q' + x * x && s == s' + x && n == n' + 1.0
    ensures d == q - 2.0 * m * s + n * m * m
  {
  }

  /** Sum and sum of squares of `v` in terms of those of its prefix. */
  lemma SumsSnoc(v: seq<real>, q: real, q': real, s: real, s': real, x: real)
    requires |v| > 0 && x == v[|v| - 1]
    requires q == SumSq(v) && s == Sum(v) && q' == SumSq(v[..|v| - 1]) && s' == Sum(v[..|v| - 1])
    ensures q == q' + x * x && s == s' + x
  {
  }

  /** SqDev of `v` in terms of that of its prefix. */
  lemma SqDevSnoc(v: seq<real>, m: real, d: real, d': real, x: real)
    requires |v| > 0 && x == v[|v| - 1]
    requires d == SqDev(v, m) && d' == SqDev(v[..|v| - 1], m)
    ensures d == d' + (x - m) * (x - m)
  {
  }

  /** The squared deviations of `v` from any m, expanded: d = q - 2 m s + n m^2
      for the sum of squares q, the sum s and the length n. The values are
      passed as plain reals so that the products are products of variables. */
  lemma {:induction false} SqDevExpand(v: seq<real>, m: real, d: real, q: real, s: real, n: real)
    requires d == SqDev(v, m) && q == SumSq(v) && s == Sum(v) && n == |v| as real
    ensures d == q - 2.0 * m * s + n * m * m
    decreases |v|
  {
    if |v| > 0 {
      var v' := v[..|v| - 1];
      var d', q', s', n' := SqDev(v', m), SumSq(v'), Sum(v'), n - 1.0;
      SqDevExpand(v', m, d', q', s', n');
      var x := v[|v| - 1];
      SqDevSnoc(v, m, d, d', x);
      SumsSnoc(v, q, q', s, s', x);
      ExpandAlgebra(d, d', q, q', s, s', n, n', x, m);
    }
  }

  /** One step of SpreadNonneg on plain reals: appending x adds the squared
      deviations of the old values from x, which are non-negative. */
  lemma SpreadStep(k: real, q: real, s: real, x: real, sd: real, k1: real, q1: real, s1: real)
    requires k * q - s * s >= 0.0
    requires sd == q - 2.0 * x * s + k * x * x && sd >= 0.0
    requires k1 == k + 1.0 && q1 == q + x * x && s1 == s + x
    ensures k1 * q1 - s1 * s1 >= 0.0
  {
    assert k1 * q1 - s1 * s1 == (k * q - s * s) + sd;
  }

  /** n * (sum of squares) >= sum^2 for any n values. */
  lemma {:induction false} SpreadNonneg(v: seq<real>, k: real, q: real, s: real)
    requires k == |v| as real && q == SumSq(v) && s == Sum(v)
    ensures k * q - s * s >= 0.0
    decreases |v|
  {
    if |v| > 0 {
      var v', x := v[..|v| - 1], v[|v| - 1];
      var k', q', s' := k - 1.0, SumSq(v'), Sum(v');
      SpreadNonneg(v', k', q', s');
      var sd := SqDev(v', x);
      SqDevExpand(v', x, sd, q', s', k');
      SqDevNonneg(v', x);
      SumsSnoc(v, q, q', s, s', x);
      SpreadStep(k', q', s', x, sd, k, q, s);
    }
  }

  lemma MseAlgebra(n: int, s: real, q: real)
    requires n > 0 && (n as real) * q - s * s >= 0.0
    ensures ComputeMse(n, s, q) >= 0.0
  {
    var k := n as real;
    var m := s / k;
    assert s == m * k;
    assert k * q - (m * k) * (m * k) >= 0.0;
    assert k * (q - k * (m * m)) >= 0.0;
    assert q - k * (m * m) >= 0.0;
    assert q / k - m * m == (q - k * (m * m)) / k;
  }

  /** computeMSE of a node's own running sums is never negative. */
  lemma MseNonneg(v: seq<real>, s: real, q: real)
    requires |v| > 0 && s == Sum(v) && q == SumSq(v)
    ensures ComputeMse(|v|, s, q) >= 0.0
  {
    SpreadNonneg(v, |v| as real, q, s);
    MseAlgebra(|v|, s, q);
  }

  lemma ConstantAlgebra(n: int, c: real, s: real, q: real)
    requires n > 0 && s == (n as real) * c && q == (n as real) * c * c
    ensures ComputeMse(n, s, q) == 0.0
  {
    var k := n as real;
    assert s / k == c;
    assert q / k == c * c;
  }

  /** A constant sequence has variance 0. */
  lemma MseOfConstant(v: seq<real>, c: real, n: int, s: real, q: real)
    requires forall k :: 0 <= k < |v| ==> v[k] == c
    requires n == |v| && s == Sum(v) && q == SumSq(v)
    ensures ComputeMse(n, s, q) == 0.0
  {
    SumConst(v, c);
    if n > 0 {
      ConstantAlgebra(n, c, s, q);
    }
  }
}
