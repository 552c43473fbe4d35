/** ClassificationBenchmark (ClassificationBenchmark.cpp): labels are the
    rounded predictions and targets; the metrics are accuracy and the binary
    precision, recall and F1 of label 1. Division by zero gives NaN. The
    model's prediction is given as a value: `preds` is what predict answers
    for the feature table. */
module ClassificationBenchmark {
  import opened Numeric
  import opened BenchmarkStrategy

  const PositiveLabel := 1

  /** safeDiv: NaN when the denominator is zero. */
  function SafeDiv(num: real, den: real): (r: Ext)
    ensures r.NaN? <==> den == 0.0
    ensures den != 0.0 ==> r == Fin(num / den)
  {
    if den == 0.0 then NaN else Fin(num / den)
  }

  // ---------------------------------------------------------------------------
  // Labels
  // ---------------------------------------------------------------------------

  /** The labels of a sequence of raw values: each rounded half away from
      zero. */
  function Labels(raw: seq<real>): (l: seq<int>)
    ensures |l| == |raw| && forall i :: 0 <= i < |raw| ==> l[i] == Round(raw[i])
  {
    seq(|raw|, i requires 0 <= i < |raw| => Round(raw[i]))
  }

  /** The rounding loop of execute and evaluate. */
  method RoundLabels(actualRaw: seq<real>, rawPreds: seq<real>) returns (actual: seq<int>, predicted: seq<int>)
    requires |actualRaw| == |rawPreds|
    ensures actual == Labels(actualRaw) && predicted == Labels(rawPreds)
  {
    actual := seq(|actualRaw|, _ => 0);
    predicted := seq(|rawPreds|, _ => 0);
    for i := 0 to |actualRaw|
      invariant |actual| == |actualRaw| && |predicted| == |rawPreds|
      invariant forall k :: 0 <= k < i ==> actual[k] == Round(actualRaw[k]) && predicted[k] == Round(rawPreds[k])
    {
      actual := actual[i := Round(actualRaw[i])];
      predicted := predicted[i := Round(rawPreds[i])];
    }
  }

  // ---------------------------------------------------------------------------
  // Accuracy
  // ---------------------------------------------------------------------------

  /** The number of positions where the two label sequences agree. */
  function Matches(actual: seq<int>, predicted: seq<int>): nat
    requires |actual| == |predicted|
  {
    if |actual| == 0 then 0
    else
      var agree := if actual[|actual| - 1] == predicted[|predicted| - 1] then 1 else 0;
      Matches(actual[..|actual| - 1], predicted[..|predicted| - 1]) + agree
  }

  /** At most every position agrees, and every position does exactly when
      the sequences are equal. */
  lemma {:induction false} MatchesBounds(actual: seq<int>, predicted: seq<int>)
    requires |actual| == |predicted|
    ensures Matches(actual, predicted) <= |actual|
    ensures Matches(actual, predicted) == |actual| <==> actual == predicted
  {
    if |actual| > 0 {
      var a, p := actual[..|actual| - 1], predicted[..|predicted| - 1];
      MatchesBounds(a, p);
      assert actual == a + [actual[|actual| - 1]] && predicted == p + [predicted[|predicted| - 1]];
      if actual == predicted {
        assert a == p;
      }
    }
  }

  /** computeAccuracy: NaN for no labels, else the agreeing fraction. */
  method ComputeAccuracy(actual: seq<int>, predicted: seq<int>) returns (acc: Ext)
    requires |actual| == |predicted|
    ensures |actual| == 0 ==> acc.NaN?
    ensures |actual| > 0 ==> acc == Fin(Matches(actual, predicted) as real / |actual| as real)
  {
    if |actual| == 0 {
      return NaN;
    }
    var correct := 0;
    for i := 0 to |actual|
      invariant correct == Matches(actual[..i], predicted[..i])
    {
      assert actual[..i + 1][..i] == actual[..i] && predicted[..i + 1][..i] == predicted[..i];
      if actual[i] == predicted[i] {
        correct := correct + 1;
      }
    }
    assert actual[..|actual|] == actual && predicted[..|predicted|] == predicted;
    acc := Fin(correct as real / |actual| as real);
  }

  /** The accuracy of a non-empty labelling lies in [0, 1] and is 1 exactly
      when every label is right. */
  lemma AccuracyRange(actual: seq<int>, predicted: seq<int>)
    requires |actual| == |predicted| && |actual| > 0
    ensures 0.0 <= Matches(actual, predicted) as real / |actual| as real <= 1.0
    ensures Matches(actual, predicted) as real / |actual| as real == 1.0 <==> actual == predicted
  {
    MatchesBounds(actual, predicted);
    FractionRange(Matches(actual, predicted) as real, |actual| as real);
  }

  /** A part of a positive whole is a fraction in [0, 1], equal to 1 only
      for the whole. */
  lemma FractionRange(m: real, n: real)
    requires 0.0 <= m <= n && n > 0.0
    ensures 0.0 <= m / n <= 1.0
    ensures m / n == 1.0 <==> m == n
  { }

  // ---------------------------------------------------------------------------
  // The binary confusion counts
  // ---------------------------------------------------------------------------

  datatype Confusion = Confusion(tp: nat, fp: nat, fn: nat, tn: nat)

  /** The counts of the first |actual| positions, by the four cases of
      (actual is positive, predicted is positive). */
  function ConfusionOf(actual: seq<int>, predicted: seq<int>, positive: int): Confusion
    requires |actual| == |predicted|
  {
    if |actual| == 0 then Confusion(0, 0, 0, 0)
    else
      var c := ConfusionOf(actual[..|actual| - 1], predicted[..|predicted| - 1], positive);
      var isPos, predPos := actual[|actual| - 1] == positive, predicted[|predicted| - 1] == positive;
      if isPos && predPos then c.(tp := c.tp + 1)
      else if !isPos && predPos then c.(fp := c.fp + 1)
      else if isPos && !predPos then c.(fn := c.fn + 1)
      else c.(tn := c.tn + 1)
  }

  /** computeBinaryConfusion. */
  method ComputeBinaryConfusion(actual: seq<int>, predicted: seq<int>, positive: int) returns (c: Confusion)
    requires |actual| == |predicted|
    ensures c == ConfusionOf(actual, predicted, positive)
  {
    c := Confusion(0, 0, 0, 0);
    for i := 0 to |actual|
      invariant c == ConfusionOf(actual[..i], predicted[..i], positive)
    {
      assert actual[..i + 1][..i] == actual[..i] && predicted[..i + 1][..i] == predicted[..i];
      var isPos := actual[i] == positive;
      var predPos := predicted[i] == positive;
      if isPos && predPos {
        c := c.(tp := c.tp + 1);
      } else if !isPos && predPos {
        c := c.(fp := c.fp + 1);
      } else if isPos && !predPos {
        c := c.(fn := c.fn + 1);
      } else {
        c := c.(tn := c.tn + 1);
      }
    }
    assert actual[..|actual|] == actual && predicted[..|predicted|] == predicted;
  }

  /** Every position lands in exactly one cell; the positive row totals the
      positive targets and the positive column the positive predictions. */
  lemma {:induction false} ConfusionTotals(actual: seq<int>, predicted: seq<int>, positive: int)
    requires |actual| == |predicted|
    ensures var c := ConfusionOf(actual, predicted, positive);
      c.tp + c.fp + c.fn + c.tn == |actual| &&
      c.tp + c.fn == Count(actual, positive) &&
      c.tp + c.fp == Count(predicted, positive)
  {
    if |actual| > 0 {
      ConfusionTotals(actual[..|actual| - 1], predicted[..|predicted| - 1], positive);
    }
  }

  /** The labels agree on a position exactly when it is a true positive or a
      true negative, as long as only two labels occur. */
  lemma {:induction false} ConfusionMatches(actual: seq<int>, predicted: seq<int>, positive: int, negative: int)
    requires |actual| == |predicted| && positive != negative
    requires forall i :: 0 <= i < |actual| ==> actual[i] in {positive, negative} && predicted[i] in {positive, negative}
    ensures ConfusionOf(actual, predicted, positive).tp + ConfusionOf(actual, predicted, positive).tn ==
      Matches(actual, predicted)
  {
    if |actual| > 0 {
      ConfusionMatches(actual[..|actual| - 1], predicted[..|predicted| - 1], positive, negative);
    }
  }

  // ---------------------------------------------------------------------------
  // Precision, recall and F1
  // ---------------------------------------------------------------------------

  function Precision(c: Confusion): (p: Ext)
    ensures p.NaN? <==> c.tp + c.fp == 0
    ensures p.Fin? ==> 0.0 <= p.v <= 1.0
  {
    SafeDiv(c.tp as real, (c.tp + c.fp) as real)
  }

  function Recall(c: Confusion): (r: Ext)
    ensures r.NaN? <==> c.tp + c.fn == 0
    ensures r.Fin? ==> 0.0 <= r.v <= 1.0
  {
    SafeDiv(c.tp as real, (c.tp + c.fn) as real)
  }

  /** The F1 expression: NaN when the sum of precision and recall is NaN or
      zero, else their harmonic mean. An infinite operand (which the two
      ratios above never are) also ends in NaN, as inf / inf does. */
  function F1(precision: Ext, recall: Ext): (f: Ext)
    ensures f.Fin? <==> precision.Fin? && recall.Fin? && precision.v + recall.v != 0.0
    ensures f.Fin? ==> f.v == 2.0 * precision.v * recall.v / (precision.v + recall.v)
  {
    if precision.Fin? && recall.Fin? && precision.v + recall.v != 0.0 then
      Fin(2.0 * precision.v * recall.v / (precision.v + recall.v))
    else NaN
  }

  /** F1 of the confusion counts is defined exactly when there is a true
      positive, and is then 2tp / (2tp + fp + fn). */
  lemma F1OfConfusion(c: Confusion)
    ensures F1(Precision(c), Recall(c)).Fin? <==> c.tp > 0
    ensures c.tp > 0 ==> F1(Precision(c), Recall(c)) == Fin(2.0 * c.tp as real / (2 * c.tp + c.fp + c.fn) as real)
  { }

  // ---------------------------------------------------------------------------
  // The strategy
  // ---------------------------------------------------------------------------

  /** The error rate of a labelling: NaN for no labels, else one minus the
      accuracy. */
  function ErrorRate(actual: seq<int>, predicted: seq<int>): (e: Ext)
    requires |actual| == |predicted|
    ensures e.NaN? <==> |actual| == 0
    ensures e.Fin? ==> 0.0 <= e.v <= 1.0 && (e.v == 0.0 <==> actual == predicted)
  {
    if |actual| == 0 then NaN
    else
      AccuracyRange(actual, predicted);
      Fin(1.0 - Matches(actual, predicted) as real / |actual| as real)
  }

  /** evaluate: +infinity when the prediction count differs from the target
      count, else the error rate of the rounded labels. */
  method Evaluate(rawPreds: seq<real>, actualRaw: seq<real>) returns (score: Ext)
    ensures |rawPreds| != |actualRaw| ==> score == Inf
    ensures |rawPreds| == |actualRaw| ==> score == ErrorRate(Labels(actualRaw), Labels(rawPreds))
  {
    if |rawPreds| != |actualRaw| {
      return Inf;
    }
    var actual, predicted := RoundLabels(actualRaw, rawPreds);
    var accuracy := ComputeAccuracy(actual, predicted);
    score := if accuracy.Fin? then Fin(1.0 - accuracy.v) else NaN;
  }

  /** execute: the descriptive fields always; the metrics only when the
      prediction count matches the target count, otherwise they stay NaN. */
  method Execute(modelName: string, rawPreds: seq<real>, actualRaw: seq<real>, fitMillis: real,
                 predictMillis: real, memoryBytes: nat)
    returns (result: BenchmarkResult)
    ensures result.modelName == modelName && result.taskType == "classification"
    ensures result.numSamples == |actualRaw| && result.fitMillis == fitMillis
    ensures result.predictMillis == predictMillis && result.memoryBytes == memoryBytes
    ensures result.mse.NaN? && result.rmse.NaN? && result.r2.NaN?
    ensures |rawPreds| != |actualRaw| ==>
      result.accuracy.NaN? && result.precision.NaN? && result.recall.NaN? && result.f1.NaN?
    ensures |rawPreds| == |actualRaw| ==>
      var actual, predicted := Labels(actualRaw), Labels(rawPreds);
      var c := ConfusionOf(actual, predicted, PositiveLabel);
      (|actual| == 0 ==> result.accuracy.NaN?) &&
      (|actual| > 0 ==> result.accuracy == Fin(Matches(actual, predicted) as real / |actual| as real)) &&
      result.precision == Precision(c) && result.recall == Recall(c) &&
      result.f1 == F1(Precision(c), Recall(c))
  {
    result := Unscored(modelName, "classification", |actualRaw|, fitMillis, predictMillis, memoryBytes);
    if |rawPreds| != |actualRaw| {
      return;
    }
    var actual, predicted := RoundLabels(actualRaw, rawPreds);
    var accuracy := ComputeAccuracy(actual, predicted);
    var c := ComputeBinaryConfusion(actual, predicted, PositiveLabel);
    var precision := SafeDiv(c.tp as real, (c.tp + c.fp) as real);
    var recall := SafeDiv(c.tp as real, (c.tp + c.fn) as real);
    var f1 := F1(precision, recall);
    result := result.(accuracy := accuracy, precision := precision, recall := recall, f1 := f1);
  }
}
