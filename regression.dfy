/** RegressionBenchmark (RegressionBenchmark.cpp): mean squared error, its
    square root and the coefficient of determination of the predictions
    against the targets. std::sqrt is not modelled on the reals; it is
    given to execute as a function. The model's prediction is given as a
    value: `predictions` is what predict answers for the feature table. */
module RegressionBenchmark {
  import opened Numeric
  import opened BenchmarkStrategy

  /** std::pow(x, 2) is never negative, and positive for anything but zero. */
  lemma SquarePositive(x: real)
    ensures x * x >= 0.0 && (x == 0.0 || x * x > 0.0)
  {
    if x < 0.0 {
      var e := 0.0 - x;
      assert e * e > 0.0;
      assert x * x == e * e;
    }
  }

  /** The sum of squared differences of two sequences of one length. */
  function SquaredError(actual: seq<real>, predicted: seq<real>): real
    requires |actual| == |predicted|
  {
    if |actual| == 0 then 0.0
    else
      var d := actual[|actual| - 1] - predicted[|predicted| - 1];
      SquaredError(actual[..|actual| - 1], predicted[..|predicted| - 1]) + d * d
  }

  /** The squared error is never negative, and zero exactly when the two
      sequences are equal. */
  lemma {:induction false} SquaredErrorZero(actual: seq<real>, predicted: seq<real>)
    requires |actual| == |predicted|
    ensures SquaredError(actual, predicted) >= 0.0
    ensures SquaredError(actual, predicted) == 0.0 <==> actual == predicted
  {
    if |actual| > 0 {
      var a, p := actual[..|actual| - 1], predicted[..|predicted| - 1];
      var d := actual[|actual| - 1] - predicted[|predicted| - 1];
      SquaredErrorZero(a, p);
      SquarePositive(d);
      assert actual == a + [actual[|actual| - 1]] && predicted == p + [predicted[|predicted| - 1]];
      if a != p {
        calc {
          SquaredError(actual, predicted);
        ==
          SquaredError(a, p) + d * d;
        >=
          SquaredError(a, p);
        >
          0.0;
        }
      } else if d != 0.0 {
        calc {
          SquaredError(actual, predicted);
        ==
          SquaredError(a, p) + d * d;
        >
          SquaredError(a, p);
        >=
          0.0;
        }
      } else {
        assert SquaredError(actual, predicted) == 0.0;
      }
    }
  }

  /** Every target against the one value c, as the total sum of squares
      measures them. */
  function Constant(c: real, n: nat): (s: seq<real>)
    ensures |s| == n && forall i :: 0 <= i < n ==> s[i] == c
  {
    seq(n, _ => c)
  }

  /** calculateMSE's value: 0 for no targets, else the mean squared error. */
  function MSE(actual: seq<real>, predicted: seq<real>): (m: real)
    requires |actual| == |predicted|
  {
    if |actual| == 0 then 0.0 else SquaredError(actual, predicted) / |actual| as real
  }

  /** The error is never negative, and zero exactly when every prediction
      is its target. */
  lemma MSEZero(actual: seq<real>, predicted: seq<real>)
    requires |actual| == |predicted|
    ensures MSE(actual, predicted) >= 0.0
    ensures MSE(actual, predicted) == 0.0 <==> actual == predicted
  {
    SquaredErrorZero(actual, predicted);
    if |actual| > 0 {
      var s, n := SquaredError(actual, predicted), |actual| as real;
      assert (s / n) * n == s;
    }
  }

  /** calculateMSE. */
  method CalculateMSE(actual: seq<real>, predicted: seq<real>) returns (mse: real)
    requires |actual| == |predicted|
    ensures mse == MSE(actual, predicted)
  {
    mse := 0.0;
    if |actual| == 0 {
      return 0.0;
    }
    for i := 0 to |actual|
      invariant mse == SquaredError(actual[..i], predicted[..i])
    {
      assert actual[..i + 1][..i] == actual[..i] && predicted[..i + 1][..i] == predicted[..i];
      mse := mse + (actual[i] - predicted[i]) * (actual[i] - predicted[i]);
    }
    assert actual[..|actual|] == actual && predicted[..|predicted|] == predicted;
    mse := mse / |actual| as real;
  }

  /** calculateR2's value: 0 for no targets; when every target is the mean,
      1 for a perfect fit and 0 otherwise; else 1 - SSres / SStot. */
  function R2(actual: seq<real>, predicted: seq<real>): (r: real)
    requires |actual| == |predicted|
  {
    if |actual| == 0 then 0.0
    else
      var ssTotal := SquaredError(actual, Constant(Mean(actual), |actual|));
      var ssRes := SquaredError(actual, predicted);
      if ssTotal == 0.0 then (if ssRes == 0.0 then 1.0 else 0.0) else 1.0 - ssRes / ssTotal
  }

  /** R2 never exceeds 1, and on targets reaches it exactly for the perfect
      fit. */
  lemma R2Bound(actual: seq<real>, predicted: seq<real>)
    requires |actual| == |predicted|
    ensures R2(actual, predicted) <= 1.0
    ensures |actual| > 0 ==> (R2(actual, predicted) == 1.0 <==> actual == predicted)
  {
    SquaredErrorZero(actual, predicted);
    if |actual| > 0 {
      var m := Mean(actual);
      var c := Constant(m, |actual|);
      SquaredErrorZero(actual, c);
      var ssTotal, ssRes := SquaredError(actual, c), SquaredError(actual, predicted);
      if ssTotal != 0.0 {
        var q := ssRes / ssTotal;
        assert q * ssTotal == ssRes;
        if ssRes == 0.0 {
          assert q == 0.0;
        } else {
          assert q > 0.0;
        }
      }
    }
  }

  /** Predicting the mean of the targets scores 0 whenever the targets are
      not all equal. */
  lemma R2OfMean(actual: seq<real>)
    requires |actual| > 0
    requires SquaredError(actual, Constant(Mean(actual), |actual|)) != 0.0
    ensures R2(actual, Constant(Mean(actual), |actual|)) == 0.0
  {
    var c := Constant(Mean(actual), |actual|);
    var ss := SquaredError(actual, c);
    DivSelf(ss);
  }

  lemma DivSelf(x: real)
    requires x != 0.0
    ensures x / x == 1.0
  {
  }

  /** The accumulate call of calculateR2: the targets summed in order. */
  method SumValues(values: seq<real>) returns (total: real)
    ensures total == Sum(values)
  {
    total := 0.0;
    for i := 0 to |values|
      invariant total == Sum(values[..i])
    {
      assert values[..i + 1][..i] == values[..i];
      total := total + values[i];
    }
    assert values[..|values|] == values;
  }

  /** The loop of calculateR2: the total sum of squares about the mean and
      the residual sum of squares, together. */
  method SumsOfSquares(actual: seq<real>, predicted: seq<real>, mean: real) returns (ssTotal: real, ssRes: real)
    requires |actual| == |predicted|
    ensures ssTotal == SquaredError(actual, Constant(mean, |actual|))
    ensures ssRes == SquaredError(actual, predicted)
  {
    ghost var c := Constant(mean, |actual|);
    ssTotal, ssRes := 0.0, 0.0;
    for i := 0 to |actual|
      invariant ssTotal == SquaredError(actual[..i], c[..i])
      invariant ssRes == SquaredError(actual[..i], predicted[..i])
    {
      assert actual[..i + 1][..i] == actual[..i] && predicted[..i + 1][..i] == predicted[..i];
      assert c[..i + 1][..i] == c[..i];
      ssTotal := ssTotal + (actual[i] - mean) * (actual[i] - mean);
      ssRes := ssRes + (actual[i] - predicted[i]) * (actual[i] - predicted[i]);
    }
    assert actual[..|actual|] == actual && predicted[..|predicted|] == predicted && c[..|c|] == c;
  }

  /** calculateR2: the mean, then the two sums of squares, then the ratio. */
  method CalculateR2(actual: seq<real>, predicted: seq<real>) returns (r2: real)
    requires |actual| == |predicted|
    ensures r2 == R2(actual, predicted)
  {
    if |actual| == 0 {
      return 0.0;
    }
    var sumActual := SumValues(actual);
    var meanActual := sumActual / |actual| as real;
    var ssTotal, ssRes := SumsOfSquares(actual, predicted, meanActual);
    if ssTotal == 0.0 {
      return if ssRes == 0.0 then 1.0 else 0.0;
    }
    r2 := 1.0 - ssRes / ssTotal;
  }

  /** evaluate: +infinity when the prediction count differs from the target
      count, else the mean squared error. */
  method Evaluate(predictions: seq<real>, actual: seq<real>) returns (score: Ext)
    ensures |predictions| != |actual| ==> score == Inf
    ensures |predictions| == |actual| ==> score == Fin(MSE(actual, predictions))
  {
    if |predictions| != |actual| {
      return Inf;
    }
    var mse := CalculateMSE(actual, predictions);
    score := Fin(mse);
  }

  /** execute: the descriptive fields always; the three metrics only when
      the prediction count matches the target count, otherwise they stay
      NaN. */
  method Execute(modelName: string, predictions: seq<real>, actual: seq<real>, fitMillis: real,
                 predictMillis: real, memoryBytes: nat, sqrt: real -> real)
    returns (result: BenchmarkResult)
    ensures result.modelName == modelName && result.taskType == "regression"
    ensures result.numSamples == |actual| && result.fitMillis == fitMillis
    ensures result.predictMillis == predictMillis && result.memoryBytes == memoryBytes
    ensures result.accuracy.NaN? && result.precision.NaN? && result.recall.NaN? && result.f1.NaN?
    ensures |predictions| != |actual| ==> result.mse.NaN? && result.rmse.NaN? && result.r2.NaN?
    ensures |predictions| == |actual| ==>
      result.mse == Fin(MSE(actual, predictions)) && result.rmse == Fin(sqrt(MSE(actual, predictions))) &&
      result.r2 == Fin(R2(actual, predictions))
  {
    result := Unscored(modelName, "regression", |actual|, fitMillis, predictMillis, memoryBytes);
    if |predictions| != |actual| {
      return;
    }
    var mse := CalculateMSE(actual, predictions);
    var r2 := CalculateR2(actual, predictions);
    result := result.(mse := Fin(mse), rmse := Fin(sqrt(mse)), r2 := Fin(r2));
  }
}
