/** XGBoostModel (XGBoostModel.h / XGBoostModel.cpp): gradient boosting of
    regression trees. fit starts every running prediction at a bias (the mean
    target for regression), then for each round fits a depth-limited
    regression tree on the residuals of a subsample of distinct rows and adds
    learningRate times its output to every row's running prediction. predict
    is the bias plus learningRate times each tree's output.

    The generator (a std::mt19937 seeded with 42 on every fit) supplies one
    shuffle of the row numbers per round; these arrive as the `shuffles`
    parameter. std::exp and std::log are not modelled: the classification
    fit receives the sigmoid and the natural logarithm as functions, and the
    classification predict compares the score with 0, since
    1 / (1 + e^-s) >= 0.5 holds exactly when s >= 0. */
module XGBoost {
  import opened Wrappers
  import opened Numeric
  import opened SplitSearch
  import opened TreeGrowth
  import opened Layout
  import opened DecisionTreeModel

  const CtorSubsampleMsg := "subsampleRatio must be in (0, 1]."
  const CtorEstimatorsMsg := "nEstimators must be > 0."
  const CtorDepthMsg := "maxDepth must be > 0."
  const CtorRateMsg := "learningRate must be > 0."
  const FitShapeMsg := "X and Y must be non-empty and have matching rows."
  const FitFeatureMsg := "X must contain at least one feature."
  const NotFittedMsg := "Model not fitted. Call fit() first."
  const FlatNotFittedMsg := "Model not fitted. Call fit() before predict()."
  const FlatColumnsMsg := "Columns must be provided for XGBoostModel::fit."
  const FlatEmptyMsg := "Feature and target vectors must be non-empty."
  const FlatMultipleMsg := "Feature vector size must be a multiple of the number of columns."
  const FlatTargetsMsg :=
    "Feature rows must match target size (XGBoost only supports single-output regression/binary classification)."

  /** The probability bounds that keep log away from 0 and infinity. */
  const ProbLow: real := 0.000001
  const ProbHigh: real := 1.0 - 0.000001

  // ---------------------------------------------------------------------------
  // Scores
  // ---------------------------------------------------------------------------

  /** The score predict accumulates: the bias, then learningRate times each
      tree's output added in tree order. */
  ghost function Score(bias: real, lr: real, models: seq<Tree>, x: seq<real>): real
    requires AllBelow(models, |x|)
  {
    if |models| == 0 then bias
    else Score(bias, lr, models[..|models| - 1], x) + lr * Eval(models[|models| - 1], x)
  }

  /** The classification answer: 1.0 exactly when sigmoid(score) >= 0.5. */
  function Threshold(score: real): (r: real)
    ensures r == 1.0 <==> score >= 0.0
    ensures r == 0.0 <==> score < 0.0
  {
    if score >= 0.0 then 1.0 else 0.0
  }

  /** One more tree adds learningRate times its output to the score. */
  lemma ScoreSnoc(bias: real, lr: real, models: seq<Tree>, m: Tree, x: seq<real>)
    requires AllBelow(models, |x|) && FeaturesBelow(m, |x|)
    ensures AllBelow(models + [m], |x|)
    ensures Score(bias, lr, models + [m], x) == Score(bias, lr, models, x) + lr * Eval(m, x)
  {
    assert (models + [m])[..|models|] == models;
  }

  /** Adding lr times the new tree's output to every row's score after ms
      gives the rows' scores after ms + [m]. */
  lemma NextScores(bias: real, lr: real, ms: seq<Tree>, m: Tree, X: seq<seq<real>>, p: int,
                   predictions: seq<real>, next: seq<real>)
    requires Rect(X, p) && AllBelow(ms, p) && FeaturesBelow(m, p)
    requires |predictions| == |X| && |next| == |X|
    requires forall i :: 0 <= i < |X| ==> predictions[i] == Score(bias, lr, ms, X[i])
    requires forall i :: 0 <= i < |X| ==> next[i] == predictions[i] + lr * Eval(m, X[i])
    ensures AllBelow(ms + [m], p)
    ensures forall i :: 0 <= i < |X| ==> next[i] == Score(bias, lr, ms + [m], X[i])
  {
    forall i | 0 <= i < |X| ensures next[i] == Score(bias, lr, ms + [m], X[i]) {
      ScoreSnoc(bias, lr, ms, m, X[i]);
    }
  }

  /** If every tree gives the same output c on x, the score is linear in the
      number of trees. */
  lemma {:induction false} ScoreConstant(bias: real, lr: real, models: seq<Tree>, x: seq<real>, c: real)
    requires AllBelow(models, |x|)
    requires forall t :: 0 <= t < |models| ==> Eval(models[t], x) == c
    ensures Score(bias, lr, models, x) == bias + (|models| as real) * lr * c
  {
    if |models| > 0 {
      ScoreConstant(bias, lr, models[..|models| - 1], x, c);
    }
  }

  // ---------------------------------------------------------------------------
  // The pieces of fit
  // ---------------------------------------------------------------------------

  /** The rows of each round: clamp(ceil(ratio * n), 1, n), from the first
      positions of that round's shuffle. */
  function SubsampleSize(ratio: real, n: nat): (k: int)
    ensures n > 0 ==> 1 <= k <= n
  {
    Clamp(Ceil(ratio * (n as real)), 1, n)
  }

  /** For a ratio in (0, 1] the clamp never applies: the subsample has
      exactly ceil(ratio * n) rows. */
  lemma SubsampleUnclamped(ratio: real, n: nat)
    requires n > 0 && 0.0 < ratio <= 1.0
    ensures SubsampleSize(ratio, n) == Ceil(ratio * (n as real))
  {
    var z := ratio * (n as real);
    assert 0.0 < z;
    assert z <= 1.0 * (n as real);
    var c := Ceil(z);
    assert (c as real) - 1.0 < z <= c as real;
  }

  /** The rows of a round are distinct rows of the table, as many as asked. */
  lemma SubsampleRowsDistinct(shuffle: seq<int>, n: nat, k: int)
    requires multiset(shuffle) == multiset(Range(n)) && |shuffle| == n && 0 <= k <= n
    ensures |shuffle[..k]| == k && ValidIdx(shuffle[..k], n)
    ensures forall i, j :: 0 <= i < j < k ==> shuffle[..k][i] != shuffle[..k][j]
  {
    PermutationOfRange(shuffle, n);
  }

  /** Targets above 0.5, the positive class of the classification bias. */
  function Positives(Y: seq<real>): (c: nat)
    ensures c <= |Y|
  {
    if |Y| == 0 then 0 else Positives(Y[..|Y| - 1]) + (if Y[|Y| - 1] > 0.5 then 1 else 0)
  }

  /** std::max(1e-6, std::min(1 - 1e-6, prob)). */
  function ClampProb(prob: real): (r: real)
    ensures ProbLow <= r <= ProbHigh
    ensures ProbLow <= prob <= ProbHigh ==> r == prob
  {
    var m := if prob < ProbHigh then prob else ProbHigh;
    if ProbLow < m then m else ProbLow
  }

  /** The initial bias: the mean target for regression; for classification
      the log-odds of the clamped share of positive targets. */
  ghost function InitialBias(isClassification: bool, log: real -> real, Y: seq<real>): real
    requires |Y| > 0
  {
    if isClassification then
      var prob := ClampProb((Positives(Y) as real) / (|Y| as real));
      log(prob / (1.0 - prob))
    else Mean(Y)
  }

  /** The target of a row in one round: the gradient of the squared error
      (y - pred), or of the log loss (y - sigmoid(pred)). */
  function Residual(isClassification: bool, sigmoid: real -> real, y: real, pred: real): real
  {
    if isClassification then y - sigmoid(pred) else y - pred
  }

  /** The regression bias centres the first round's targets: the residuals
      y - mean(Y) sum to zero. */
  lemma FirstResidualsCentred(Y: seq<real>, sigmoid: real -> real)
    requires |Y| > 0
    ensures Sum(seq(|Y|, i requires 0 <= i < |Y| => Residual(false, sigmoid, Y[i], Mean(Y)))) == 0.0
  {
    var m := Mean(Y);
    var d := seq(|Y|, i requires 0 <= i < |Y| => Residual(false, sigmoid, Y[i], m));
    assert d == seq(|Y|, i requires 0 <= i < |Y| => Y[i] - m);
    SumShift(Y, m);
    assert Sum(Y) == m * (|Y| as real);
  }

  /** Subtracting c from every entry lowers the sum by c per entry. */
  lemma {:induction false} SumShift(s: seq<real>, c: real)
    ensures Sum(seq(|s|, i requires 0 <= i < |s| => s[i] - c)) == Sum(s) - (|s| as real) * c
  {
    if |s| > 0 {
      var s' := s[..|s| - 1];
      SumShift(s', c);
      var d := seq(|s|, i requires 0 <= i < |s| => s[i] - c);
      var d' := seq(|s'|, i requires 0 <= i < |s'| => s'[i] - c);
      assert d[..|d| - 1] == d';
    }
  }

  // ---------------------------------------------------------------------------
  // The model object
  // ---------------------------------------------------------------------------

  class XGBoostModel {
    const nEstimators: int
    const learningRate: real
    const maxDepth: int
    const subsampleRatio: real
    /** Stored and returned by the getters; fit and predict never read them. */
    const gamma: real
    const regularization: string
    const isClassification: bool
    var trees: seq<DecisionTree>
    var initialBias: real
    var isFitted: bool
    /** The trees' grown models, and the width they were fitted on. */
    ghost var models: seq<Tree>
    ghost var width: int

    /** A fitted regression tree of this model's depth and minSampleSplit 2. */
    ghost predicate TreeOk(t: DecisionTree, w: int)
      reads t
    {
      t.Valid() && t.isFitted && t.nFeatures == w && t.maxDepth == maxDepth &&
      t.minSampleSplit == 2 && !t.isClassification
    }

    ghost predicate Valid()
      reads this, trees
    {
      nEstimators > 0 && |models| == |trees| &&
      (isFitted ==> |trees| == nEstimators && width > 0) &&
      TreesOk(trees, models, width)
    }

    /** Each tree of ts satisfies TreeOk and has grown the model at the same
        position of ms. */
    ghost predicate TreesOk(ts: seq<DecisionTree>, ms: seq<Tree>, w: int)
      reads ts
      decreases |ts|
    {
      |ts| == |ms| &&
      (|ts| > 0 ==>
        TreeOk(ts[|ts| - 1], w) && ts[|ts| - 1].model == ms[|ms| - 1] &&
        TreesOk(ts[..|ts| - 1], ms[..|ms| - 1], w))
    }

    lemma TreesOkSnoc(ts: seq<DecisionTree>, ms: seq<Tree>, w: int, t: DecisionTree)
      requires TreesOk(ts, ms, w) && TreeOk(t, w)
      ensures TreesOk(ts + [t], ms + [t.model], w)
    {
      assert (ts + [t])[..|ts|] == ts;
      assert (ms + [t.model])[..|ms|] == ms;
    }

    lemma {:induction false} TreesOkAt(ts: seq<DecisionTree>, ms: seq<Tree>, w: int, i: int)
      requires TreesOk(ts, ms, w) && 0 <= i < |ts|
      ensures TreeOk(ts[i], w) && ts[i].model == ms[i]
      decreases |ts|
    {
      if i < |ts| - 1 {
        TreesOkAt(ts[..|ts| - 1], ms[..|ms| - 1], w, i);
      }
    }

    /** What predict answers for x: the score, thresholded for classification. */
    ghost function Output(bias: real, ms: seq<Tree>, x: seq<real>): real
      requires AllBelow(ms, |x|)
    {
      if isClassification then Threshold(Score(bias, learningRate, ms, x)) else Score(bias, learningRate, ms, x)
    }

    /** The targets of the round after the trees `prev`: each row's residual
        against its running prediction, the score of those trees. */
    ghost function RoundTargets(sigmoid: real -> real, bias: real, prev: seq<Tree>,
                                X: seq<seq<real>>, Y: seq<real>, p: int): (r: seq<real>)
      requires |X| == |Y| && Rect(X, p) && AllBelow(prev, p)
      ensures |r| == |Y|
      ensures forall i :: 0 <= i < |Y| ==> r[i] == Residual(isClassification, sigmoid, Y[i], Score(bias, learningRate, prev, X[i]))
    {
      seq(|Y|, i requires 0 <= i < |Y| => Residual(isClassification, sigmoid, Y[i], Score(bias, learningRate, prev, X[i])))
    }

    /** The models of the first t rounds of fit on the width-p table (X, Y):
        round s grows a regression tree on the subsample of shuffle s, with
        the residuals after rounds 0 .. s-1 as targets. */
    ghost function Rounds(sigmoid: real -> real, bias: real, X: seq<seq<real>>, Y: seq<real>, p: int,
                          shuffles: seq<seq<int>>, t: nat): (ms: seq<Tree>)
      requires |X| == |Y| && p >= 0 && Rect(X, p) && ShufflesOk(shuffles, |X|) && t <= nEstimators
      ensures |ms| == t && AllBelow(ms, p)
    {
      if t == 0 then []
      else
        var prev := Rounds(sigmoid, bias, X, Y, p, shuffles, t - 1);
        prev + [RoundModel(sigmoid, bias, X, Y, p, shuffles, prev)]
    }

    /** The tree of the round after the trees `prev`: a regression tree of
        depth maxDepth grown on the first SubsampleSize rows of that round's
        shuffle, with the residuals after `prev` as targets. */
    ghost function RoundModel(sigmoid: real -> real, bias: real, X: seq<seq<real>>, Y: seq<real>, p: int,
                              shuffles: seq<seq<int>>, prev: seq<Tree>): (m: Tree)
      requires |X| == |Y| && p >= 0 && Rect(X, p) && ShufflesOk(shuffles, |X|)
      requires AllBelow(prev, p) && |prev| < nEstimators
      ensures FeaturesBelow(m, p)
    {
      PermutationOfRange(shuffles[|prev|], |X|);
      var k := SubsampleSize(subsampleRatio, |X|);
      var rows := if 0 <= k <= |X| then shuffles[|prev|][..k] else [];
      TreeModel(false, maxDepth, 2, X, RoundTargets(sigmoid, bias, prev, X, Y, p), p, rows)
    }

    /** The generator's shuffles of one fit: one permutation of the n row
        numbers per round. */
    predicate ShufflesOk(shuffles: seq<seq<int>>, n: nat)
    {
      |shuffles| == nEstimators && forall s :: 0 <= s < |shuffles| ==> multiset(shuffles[s]) == multiset(Range(n))
    }

    /** The constructor once its four checks have passed. */
    constructor(nEstimators: int, learningRate: real, maxDepth: int, subsampleRatio: real,
                gamma: real, regularization: string, isClassification: bool)
      requires 0.0 < subsampleRatio <= 1.0 && nEstimators > 0 && maxDepth > 0 && learningRate > 0.0
      ensures Valid() && !isFitted && trees == [] && initialBias == 0.0
      ensures this.nEstimators == nEstimators && this.learningRate == learningRate &&
        this.maxDepth == maxDepth && this.subsampleRatio == subsampleRatio && this.gamma == gamma &&
        this.regularization == regularization && this.isClassification == isClassification
    {
      this.nEstimators := nEstimators;
      this.learningRate := learningRate;
      this.maxDepth := maxDepth;
      this.subsampleRatio := subsampleRatio;
      this.gamma := gamma;
      this.regularization := regularization;
      this.isClassification := isClassification;
      trees := [];
      initialBias := 0.0;
      isFitted := false;
      models := [];
      width := 0;
    }

    /** The initial bias loop: the count of targets above 0.5, or the running
        sum of the targets. */
    method ComputeBias(Y: seq<real>, log: real -> real) returns (bias: real)
      requires |Y| > 0
      ensures bias == InitialBias(isClassification, log, Y)
    {
      if isClassification {
        var posCount := 0.0;
        for i := 0 to |Y|
          invariant posCount == Positives(Y[..i]) as real
        {
          assert Y[..i + 1][..i] == Y[..i];
          if Y[i] > 0.5 {
            posCount := posCount + 1.0;
          }
        }
        assert Y[..|Y|] == Y;
        var prob := posCount / (|Y| as real);
        prob := ClampProb(prob);
        bias := log(prob / (1.0 - prob));
      } else {
        var s := 0.0;
        for i := 0 to |Y|
          invariant s == Sum(Y[..i])
        {
          assert Y[..i + 1][..i] == Y[..i];
          s := s + Y[i];
        }
        assert Y[..|Y|] == Y;
        bias := s / (|Y| as real);
      }
    }

    /** The residual loop at the head of a round. */
    method ComputeResiduals(Y: seq<real>, predictions: seq<real>, sigmoid: real -> real)
      returns (residuals: seq<real>)
      requires |predictions| == |Y|
      ensures |residuals| == |Y|
      ensures forall i :: 0 <= i < |Y| ==> residuals[i] == Residual(isClassification, sigmoid, Y[i], predictions[i])
    {
      residuals := seq(|Y|, _ => 0.0);
      for i := 0 to |Y|
        invariant |residuals| == |Y|
        invariant forall j :: 0 <= j < i ==> residuals[j] == Residual(isClassification, sigmoid, Y[j], predictions[j])
      {
        if isClassification {
          var prob := sigmoid(predictions[i]);
          residuals := residuals[i := Y[i] - prob];
        } else {
          residuals := residuals[i := Y[i] - predictions[i]];
        }
      }
    }

    /** The tree of one round: DecisionTree(maxDepth, 2, false) fitted on the
        rows `rows` of X with their residuals. */
    method GrowRound(X: seq<seq<real>>, R: seq<real>, p: int, rows: seq<int>) returns (tree: DecisionTree)
      requires |X| == |R| && p > 0 && Rect(X, p) && |rows| > 0 && ValidIdx(rows, |X|)
      ensures fresh(tree) && TreeOk(tree, p)
      ensures tree.model == TreeModel(false, maxDepth, 2, X, R, p, rows)
    {
      var Xs, Rs := Materialize(X, R, rows);
      tree := new DecisionTree(maxDepth, 2, false);
      assert Xs[0] == X[rows[0]];
      var _ := tree.Fit(Xs, Rs);
    }

    /** The update at the end of a round: every row's running prediction
        grows by learningRate times the new tree's output on that row. */
    method UpdatePredictions(tree: DecisionTree, X: seq<seq<real>>, p: int, predictions: seq<real>)
      returns (out: seq<real>)
      requires TreeOk(tree, p) && Rect(X, p) && |predictions| == |X|
      ensures |out| == |X|
      ensures forall i :: 0 <= i < |X| ==>
        FeaturesBelow(tree.model, |X[i]|) && out[i] == predictions[i] + learningRate * Eval(tree.model, X[i])
    {
      out := predictions;
      for i := 0 to |X|
        invariant |out| == |X|
        invariant forall j :: 0 <= j < i ==>
          FeaturesBelow(tree.model, |X[j]|) && out[j] == predictions[j] + learningRate * Eval(tree.model, X[j])
        invariant forall j :: i <= j < |X| ==> out[j] == predictions[j]
      {
        var treePrediction := tree.Predict(X[i]);
        out := out[i := out[i] + learningRate * treePrediction.value];
      }
    }

    /** The update of the running predictions, seen as scores: when they
        are the scores after the trees ms, they become the scores after
        ms + [tree.model]. */
    method UpdateScores(tree: DecisionTree, X: seq<seq<real>>, p: int, bias: real,
                        ghost ms: seq<Tree>, predictions: seq<real>)
      returns (next: seq<real>)
      requires TreeOk(tree, p) && Rect(X, p) && AllBelow(ms, p) && |predictions| == |X|
      requires forall i :: 0 <= i < |X| ==> predictions[i] == Score(bias, learningRate, ms, X[i])
      ensures |next| == |X| && AllBelow(ms + [tree.model], p)
      ensures forall i :: 0 <= i < |X| ==> next[i] == Score(bias, learningRate, ms + [tree.model], X[i])
    {
      next := UpdatePredictions(tree, X, p, predictions);
      NextScores(bias, learningRate, ms, tree.model, X, p, predictions, next);
    }

    /** Round t of the boosting loop, after the trees ms of rounds
        0 .. t-1: the residuals against the running predictions, the tree on
        the subsample of shuffle t, and the updated running predictions. */
    method BoostRound(X: seq<seq<real>>, Y: seq<real>, p: int, shuffles: seq<seq<int>>,
                      sigmoid: real -> real, bias: real, t: nat, ghost ms: seq<Tree>, predictions: seq<real>)
      returns (tree: DecisionTree, next: seq<real>)
      requires |X| > 0 && |X| == |Y| && p > 0 && Rect(X, p) && ShufflesOk(shuffles, |X|) && t < nEstimators
      requires ms == Rounds(sigmoid, bias, X, Y, p, shuffles, t)
      requires |predictions| == |X| && forall i :: 0 <= i < |X| ==> predictions[i] == Score(bias, learningRate, ms, X[i])
      ensures fresh(tree) && TreeOk(tree, p)
      ensures ms + [tree.model] == Rounds(sigmoid, bias, X, Y, p, shuffles, t + 1)
      ensures |next| == |X|
      ensures forall i :: 0 <= i < |X| ==> next[i] == Score(bias, learningRate, ms + [tree.model], X[i])
    {
      var n := |X|;
      var residuals := ComputeResiduals(Y, predictions, sigmoid);
      assert residuals == RoundTargets(sigmoid, bias, ms, X, Y, p);
      PermutationOfRange(shuffles[t], n);
      var k := SubsampleSize(subsampleRatio, n);
      var tree' := GrowRound(X, residuals, p, shuffles[t][..k]);
      tree := tree';
      next := UpdateScores(tree, X, p, bias, ms, predictions);
    }

    /** The boosting loop of fit: nEstimators rounds from the running
        predictions all equal to the bias. The running predictions it ends
        with are the scores predict gives the training rows. */
    method Boost(X: seq<seq<real>>, Y: seq<real>, p: int, shuffles: seq<seq<int>>,
                 sigmoid: real -> real, bias: real)
      returns (ts: seq<DecisionTree>, ghost ms: seq<Tree>, predictions: seq<real>)
      requires |X| > 0 && |X| == |Y| && p > 0 && Rect(X, p) && ShufflesOk(shuffles, |X|) && nEstimators >= 0
      ensures |ts| == nEstimators && ms == Rounds(sigmoid, bias, X, Y, p, shuffles, nEstimators)
      ensures TreesOk(ts, ms, p)
      ensures |predictions| == |X|
      ensures forall i :: 0 <= i < |X| ==> predictions[i] == Score(bias, learningRate, ms, X[i])
    {
      predictions := seq(|X|, _ => bias);
      ts, ms := [], [];
      for t := 0 to nEstimators
        invariant |ts| == t && ms == Rounds(sigmoid, bias, X, Y, p, shuffles, t)
        invariant TreesOk(ts, ms, p)
        invariant |predictions| == |X| && forall i :: 0 <= i < |X| ==> predictions[i] == Score(bias, learningRate, ms, X[i])
      {
        var tree;
        tree, predictions := BoostRound(X, Y, p, shuffles, sigmoid, bias, t, ms, predictions);
        TreesOkSnoc(ts, ms, p, tree);
        ts := ts + [tree];
        ms := ms + [tree.model];
      }
    }

    /** fit(X, Y): the row and feature checks, then the old trees are
        dropped, the bias is set and nEstimators rounds are grown. */
    method Fit(X: seq<seq<real>>, Y: seq<real>, shuffles: seq<seq<int>>, sigmoid: real -> real, log: real -> real)
      returns (r: Outcome)
      requires Valid()
      requires |X| > 0 ==> Rect(X, |X[0]|)
      requires ShufflesOk(shuffles, |X|)
      modifies this
      ensures Valid()
      ensures |Y| == 0 || |X| == 0 || |X| != |Y| ==> r == Fail(InvalidArgument(FitShapeMsg)) && unchanged(this)
      ensures |Y| > 0 && |X| == |Y| && |X[0]| == 0 ==> r == Fail(InvalidArgument(FitFeatureMsg)) && unchanged(this)
      ensures |Y| > 0 && |X| == |Y| && |X[0]| > 0 ==>
        r == Pass && isFitted && width == |X[0]| && |trees| == nEstimators &&
        initialBias == InitialBias(isClassification, log, Y) &&
        models == Rounds(sigmoid, initialBias, X, Y, |X[0]|, shuffles, nEstimators)
    {
      if |Y| == 0 || |X| == 0 || |X| != |Y| {
        return Fail(InvalidArgument(FitShapeMsg));
      }
      if |X[0]| == 0 {
        return Fail(InvalidArgument(FitFeatureMsg));
      }
      var bias := ComputeBias(Y, log);
      var ts, ms, _ := Boost(X, Y, |X[0]|, shuffles, sigmoid, bias);
      Install(ts, ms, bias, |X[0]|);
      r := Pass;
    }

    /** The end of a successful fit: the grown trees, the bias and the
        fitted flag are stored. */
    method Install(ts: seq<DecisionTree>, ghost ms: seq<Tree>, bias: real, p: int)
      requires nEstimators > 0 && |ts| == nEstimators && p > 0 && TreesOk(ts, ms, p)
      modifies this
      ensures Valid() && isFitted
      ensures trees == ts && models == ms && initialBias == bias && width == p
    {
      trees, models, width, initialBias, isFitted := ts, ms, p, bias, true;
    }

    /** predict(input): the bias plus learningRate times each tree's output,
        thresholded at 0 for classification. A tree rejects an input of
        another width. */
    method Predict(x: seq<real>) returns (r: Result<real>)
      requires Valid()
      ensures !isFitted ==> r == Err(RuntimeError(NotFittedMsg))
      ensures isFitted && |x| != width ==> r == Err(InvalidArgument(PredictWidthMsg))
      ensures isFitted && |x| == width ==>
        AllBelow(models, |x|) &&
        r == Ok(Output(initialBias, models, x))
    {
      if !isFitted {
        return Err(RuntimeError(NotFittedMsg));
      }
      var score := initialBias;
      for i := 0 to |trees|
        invariant i > 0 ==> |x| == width
        invariant AllBelow(models[..i], |x|) && score == Score(initialBias, learningRate, models[..i], x)
      {
        TreesOkAt(trees, models, width, i);
        var treePrediction := trees[i].Predict(x);
        if treePrediction.Err? {
          return Err(treePrediction.error);
        }
        assert models[..i + 1] == models[..i] + [models[i]];
        ScoreSnoc(initialBias, learningRate, models[..i], models[i], x);
        score := score + learningRate * treePrediction.value;
      }
      assert models[..|trees|] == models;
      if isClassification {
        return Ok(Threshold(score));
      }
      r := Ok(score);
    }

    /** The flat IModel fit: the column, emptiness and multiple checks, then
        fit on the reshaped rows when there is one target per row; any other
        target count is rejected. */
    method FitFlat(x: seq<real>, columns: seq<string>, y: seq<real>, shuffles: seq<seq<int>>,
                   sigmoid: real -> real, log: real -> real) returns (r: Outcome)
      requires Valid()
      requires |columns| > 0 ==> ShufflesOk(shuffles, |x| / |columns|)
      modifies this
      ensures Valid()
      ensures |columns| == 0 ==> r == Fail(InvalidArgument(FlatColumnsMsg)) && unchanged(this)
      ensures |columns| > 0 && (|x| == 0 || |y| == 0) ==> r == Fail(InvalidArgument(FlatEmptyMsg)) && unchanged(this)
      ensures |columns| > 0 && |x| > 0 && |y| > 0 && |x| % |columns| != 0 ==>
        r == Fail(InvalidArgument(FlatMultipleMsg)) && unchanged(this)
      ensures |columns| > 0 && |x| > 0 && |y| > 0 && |x| % |columns| == 0 && |y| != |x| / |columns| ==>
        r == Fail(InvalidArgument(FlatTargetsMsg)) && unchanged(this)
      ensures |columns| > 0 && |x| > 0 && |y| > 0 && |x| % |columns| == 0 && |y| == |x| / |columns| ==>
        var X := Reshape(x, |columns|);
        |X| == |y| && Rect(X, |columns|) && |X[0]| == |columns| &&
        r == Pass && isFitted && width == |columns| && |trees| == nEstimators &&
        initialBias == InitialBias(isClassification, log, y) &&
        models == Rounds(sigmoid, initialBias, X, y, |columns|, shuffles, nEstimators)
    {
      if |columns| == 0 {
        return Fail(InvalidArgument(FlatColumnsMsg));
      }
      if |x| == 0 || |y| == 0 {
        return Fail(InvalidArgument(FlatEmptyMsg));
      }
      var columnCount := |columns|;
      if |x| % columnCount != 0 {
        return Fail(InvalidArgument(FlatMultipleMsg));
      }
      var rowCount := |x| / columnCount;
      if |y| == rowCount {
        var features := ReshapeRows(x, columnCount);
        ReshapeLength(x, columnCount);
        r := Fit(features, y, shuffles, sigmoid, log);
        return;
      }
      return Fail(InvalidArgument(FlatTargetsMsg));
    }

    /** The flat IModel predict: the fitted check comes first, even for an
        empty input; then nothing for an empty input, the multiple check, and
        predict on every row in row order. */
    method PredictFlat(x: seq<real>, columns: seq<string>) returns (r: Result<seq<real>>)
      requires Valid()
      ensures !isFitted ==> r == Err(RuntimeError(FlatNotFittedMsg))
      ensures isFitted && (|x| == 0 || |columns| == 0) ==> r == Ok([])
      ensures isFitted && |x| > 0 && |columns| > 0 && |x| % |columns| != 0 ==>
        r == Err(InvalidArgument(FlatMultipleMsg))
      ensures isFitted && |x| > 0 && |columns| > 0 && |x| % |columns| == 0 && |columns| != width ==>
        r == Err(InvalidArgument(PredictWidthMsg))
      ensures isFitted && |x| > 0 && |columns| > 0 && |x| % |columns| == 0 && |columns| == width ==>
        var X := Reshape(x, |columns|);
        AllBelow(models, |columns|) && r.Ok? && |r.value| == |X| == |x| / |columns| &&
        forall i :: 0 <= i < |X| ==> r.value[i] == Output(initialBias, models, X[i])
    {
      if !isFitted {
        return Err(RuntimeError(FlatNotFittedMsg));
      }
      if |x| == 0 || |columns| == 0 {
        return Ok([]);
      }
      var columnCount := |columns|;
      if |x| % columnCount != 0 {
        return Err(InvalidArgument(FlatMultipleMsg));
      }
      var rowCount := |x| / columnCount;
      ReshapeLength(x, columnCount);
      WholeRowsPositive(|x|, columnCount);
      var predictions: seq<real> := [];
      for i := 0 to rowCount
        invariant i > 0 ==> columnCount == width
        invariant |predictions| == i
        invariant i > 0 ==> AllBelow(models, columnCount)
        invariant forall k :: 0 <= k < i ==> predictions[k] == Output(initialBias, models, Reshape(x, columnCount)[k])
      {
        var sample := RowOf(x, columnCount, i);
        var p := Predict(sample);
        if p.Err? {
          return Err(p.error);
        }
        predictions := predictions + [p.value];
      }
      r := Ok(predictions);
    }
  }

  /** The constructor: subsampleRatio in (0, 1], nEstimators > 0,
      maxDepth > 0 and learningRate > 0, checked in that order. */
  method NewXGBoost(nEstimators: int, learningRate: real, maxDepth: int, subsampleRatio: real,
                    gamma: real, regularization: string, isClassification: bool)
    returns (r: Result<XGBoostModel>)
    ensures !(0.0 < subsampleRatio <= 1.0) ==> r == Err(InvalidArgument(CtorSubsampleMsg))
    ensures 0.0 < subsampleRatio <= 1.0 && nEstimators <= 0 ==> r == Err(InvalidArgument(CtorEstimatorsMsg))
    ensures 0.0 < subsampleRatio <= 1.0 && nEstimators > 0 && maxDepth <= 0 ==>
      r == Err(InvalidArgument(CtorDepthMsg))
    ensures 0.0 < subsampleRatio <= 1.0 && nEstimators > 0 && maxDepth > 0 && learningRate <= 0.0 ==>
      r == Err(InvalidArgument(CtorRateMsg))
    ensures 0.0 < subsampleRatio <= 1.0 && nEstimators > 0 && maxDepth > 0 && learningRate > 0.0 ==>
      r.Ok? && fresh(r.value) && r.value.Valid() && !r.value.isFitted && r.value.initialBias == 0.0 &&
      r.value.nEstimators == nEstimators && r.value.learningRate == learningRate &&
      r.value.maxDepth == maxDepth && r.value.subsampleRatio == subsampleRatio &&
      r.value.gamma == gamma && r.value.regularization == regularization &&
      r.value.isClassification == isClassification
  {
    if subsampleRatio <= 0.0 || subsampleRatio > 1.0 {
      return Err(InvalidArgument(CtorSubsampleMsg));
    }
    if nEstimators <= 0 {
      return Err(InvalidArgument(CtorEstimatorsMsg));
    }
    if maxDepth <= 0 {
      return Err(InvalidArgument(CtorDepthMsg));
    }
    if learningRate <= 0.0 {
      return Err(InvalidArgument(CtorRateMsg));
    }
    var m := new XGBoostModel(nEstimators, learningRate, maxDepth, subsampleRatio, gamma, regularization,
                              isClassification);
    r := Ok(m);
  }
}
