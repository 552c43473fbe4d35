/** ClassicModelFactory (ClassicModelFactory.h / ClassicModelFactory.cpp):
    the dataset paths and types of a train / test split, the loaders that
    check them, the model constructors with fixed choices, and the random
    hyper-parameter search with 5-fold cross-validation.

    The search's generator (a std::mt19937 seeded with 42) is an oracle:
    `perm` is its shuffle of the row positions and `draws` its picks of one
    value per hyper-parameter list and iteration. Training and scoring a
    candidate are not modelled: `foldScores` holds the score the evaluation
    strategy gives each fold of each iteration. The parsing of the picked
    strings (std::stoi, std::stof) and the final refit on all rows are not
    modelled; the search answers the chosen strings. */
module ModelFactory {
  import opened Wrappers
  import opened Numeric
  import opened DatasetStore
  import opened RandomForestModel
  import opened XGBoost
  import opened Builders

  const PickEmptyMsg := "pickRandom: hyperparameter value list cannot be empty."
  const SearchShapeMsg := "randomSearch: X and y must be non-empty and have matching sizes."
  const SearchTypeMsg := "randomSearch currently supports only \"RandomForest\" and \"XGBoost\" model types."
  const SearchEmptyMsg := "randomSearch: hyperParams cannot be empty."
  const SearchForestListsMsg :=
    "randomSearch(RandomForest): expected at least 3 hyperparameter lists: nEstimators, maxDepth, minSamplesSplit."
  const SearchBoostListsMsg :=
    "randomSearch(XGBoost): expected at least 6 hyperparameter lists: nEstimators, learningRate, maxDepth, subsampleRatio, gamma, regularization."

  /** The search's fixed iteration and fold counts. */
  const MaxIterations := 20
  const KFolds := 5

  // ---------------------------------------------------------------------------
  // Checks
  // ---------------------------------------------------------------------------

  /** ensurePathSet: an empty path is rejected, naming what it is for. */
  function EnsurePathSet(path: string, what: string): (r: Outcome)
    ensures r.Pass? <==> path != ""
    ensures r.Fail? ==> r.error == InvalidArgument("ClassicModelFactory: missing " + what + " path.")
  {
    if path == "" then Fail(InvalidArgument("ClassicModelFactory: missing " + what + " path.")) else Pass
  }

  /** ensureTypeValid: a type other than train, test or val is rejected,
      naming the split and the type. */
  function EnsureTypeValid(t: string, what: string): (r: Outcome)
    ensures r.Pass? <==> t == "train" || t == "test" || t == "val"
    ensures r.Fail? ==> r.error == InvalidArgument("ClassicModelFactory: invalid " + what + " type: " + t)
  {
    if !ValidType(t) then Fail(InvalidArgument("ClassicModelFactory: invalid " + what + " type: " + t)) else Pass
  }

  /** pickRandom: an empty list is rejected; otherwise the generator's
      uniform draw over [0, |values| - 1] picks the element. */
  function PickRandom(values: seq<string>, draw: int): (r: Result<string>)
    requires |values| > 0 ==> 0 <= draw < |values|
    ensures |values| == 0 <==> r == Err(InvalidArgument(PickEmptyMsg))
    ensures r.Ok? ==> r.value in values && r.value == values[draw]
  {
    if |values| == 0 then Err(InvalidArgument(PickEmptyMsg)) else Ok(values[draw])
  }

  /** The number of hyper-parameter lists a model type reads. */
  function ListsNeeded(modelType: string): nat
  {
    if modelType == "RandomForest" then 3 else if modelType == "XGBoost" then 6 else 0
  }

  /** The argument checks of randomSearch, in order: the data, the model
      type, the list of lists, the number of lists for that type; then the
      first iteration's picks, which fail on the first empty list. */
  function CheckSearch(modelType: string, hyperParams: seq<seq<string>>, nX: nat, nY: nat): (r: Outcome)
    ensures (nX == 0 || nY == 0 || nX != nY) ==> r == Fail(InvalidArgument(SearchShapeMsg))
    ensures nX > 0 && nX == nY && modelType != "RandomForest" && modelType != "XGBoost" ==>
      r == Fail(InvalidArgument(SearchTypeMsg))
    ensures nX > 0 && nX == nY && ListsNeeded(modelType) > 0 && |hyperParams| == 0 ==>
      r == Fail(InvalidArgument(SearchEmptyMsg))
    ensures nX > 0 && nX == nY && modelType == "RandomForest" && 0 < |hyperParams| < 3 ==>
      r == Fail(InvalidArgument(SearchForestListsMsg))
    ensures nX > 0 && nX == nY && modelType == "XGBoost" && 0 < |hyperParams| < 6 ==>
      r == Fail(InvalidArgument(SearchBoostListsMsg))
    ensures r.Pass? <==>
      nX > 0 && nX == nY && ListsNeeded(modelType) > 0 && |hyperParams| >= ListsNeeded(modelType) &&
      forall l :: 0 <= l < ListsNeeded(modelType) ==> |hyperParams[l]| > 0
    ensures (nX > 0 && nX == nY && ListsNeeded(modelType) > 0 && |hyperParams| >= ListsNeeded(modelType) &&
             exists l :: 0 <= l < ListsNeeded(modelType) && |hyperParams[l]| == 0) ==>
      r == Fail(InvalidArgument(PickEmptyMsg))
  {
    if nX == 0 || nY == 0 || nX != nY then Fail(InvalidArgument(SearchShapeMsg))
    else if modelType != "RandomForest" && modelType != "XGBoost" then Fail(InvalidArgument(SearchTypeMsg))
    else if |hyperParams| == 0 then Fail(InvalidArgument(SearchEmptyMsg))
    else if modelType == "RandomForest" && |hyperParams| < 3 then Fail(InvalidArgument(SearchForestListsMsg))
    else if modelType == "XGBoost" && |hyperParams| < 6 then Fail(InvalidArgument(SearchBoostListsMsg))
    else if exists l :: 0 <= l < ListsNeeded(modelType) && |hyperParams[l]| == 0 then Fail(InvalidArgument(PickEmptyMsg))
    else Pass
  }

  // ---------------------------------------------------------------------------
  // The k-fold split
  // ---------------------------------------------------------------------------

  /** The validation positions of fold k: [k * (n / 5), end) with end = n
      for the last fold and k * (n / 5) + n / 5 otherwise. */
  function FoldStart(n: nat, k: nat): nat
  {
    k * (n / KFolds)
  }

  function FoldEnd(n: nat, k: nat): nat
  {
    if k == KFolds - 1 then n else k * (n / KFolds) + n / KFolds
  }

  /** Every fold's window lies inside [0, n]. */
  lemma FoldBounds(n: nat, k: nat)
    requires k < KFolds
    ensures FoldStart(n, k) <= FoldEnd(n, k) <= n
  {
    var q := n / KFolds;
    assert n == q * KFolds + n % KFolds;
    if k < KFolds - 1 {
      assert k * q + q == (k + 1) * q;
      assert (k + 1) * q <= KFolds * q;
    } else {
      assert k * q <= KFolds * q;
    }
  }

  /** The two halves of fold k: the validation window of the shuffled
      positions, and the others in order. */
  function FoldValidation(perm: seq<int>, k: nat): (v: seq<int>)
    requires k < KFolds
  {
    FoldBounds(|perm|, k);
    perm[FoldStart(|perm|, k)..FoldEnd(|perm|, k)]
  }

  function FoldTraining(perm: seq<int>, k: nat): (t: seq<int>)
    requires k < KFolds
  {
    FoldBounds(|perm|, k);
    perm[..FoldStart(|perm|, k)] + perm[FoldEnd(|perm|, k)..]
  }

  /** The split loop of fold k: position i goes to validation when it lies
      in the fold's window, to training otherwise, in position order. */
  method SplitFold(perm: seq<int>, k: nat) returns (train: seq<int>, valid: seq<int>)
    requires k < KFolds
    ensures train == FoldTraining(perm, k) && valid == FoldValidation(perm, k)
  {
    var n := |perm|;
    var start := k * (n / KFolds);
    var end := if k == KFolds - 1 then n else start + n / KFolds;
    FoldBounds(n, k);
    train, valid := [], [];
    for i := 0 to n
      invariant valid == perm[Clip(start, i)..Clip(end, i)]
      invariant train == perm[..Clip(start, i)] + perm[Clip(end, i)..i]
    {
      if i >= start && i < end {
        valid := valid + [perm[i]];
      } else {
        train := train + [perm[i]];
      }
    }
    assert perm[..n] == perm;
  }

  function Clip(x: nat, i: nat): nat
  {
    if x < i then x else i
  }

  /** A fold's two halves together hold each position exactly once. */
  lemma FoldPartition(perm: seq<int>, k: nat)
    requires k < KFolds
    ensures multiset(FoldTraining(perm, k)) + multiset(FoldValidation(perm, k)) == multiset(perm)
    ensures |FoldTraining(perm, k)| + |FoldValidation(perm, k)| == |perm|
  {
    FoldBounds(|perm|, k);
    var s, e := FoldStart(|perm|, k), FoldEnd(|perm|, k);
    assert perm == perm[..s] + perm[s..e] + perm[e..];
  }

  /** The five validation windows, one after the other, are the whole
      shuffled order: every row is validated in exactly one fold. */
  lemma FoldsCover(perm: seq<int>)
    ensures FoldValidation(perm, 0) + FoldValidation(perm, 1) + FoldValidation(perm, 2) +
      FoldValidation(perm, 3) + FoldValidation(perm, 4) == perm
  {
    var n := |perm|;
    var q := n / KFolds;
    FoldBounds(n, 0);
    FoldBounds(n, 1);
    FoldBounds(n, 2);
    FoldBounds(n, 3);
    FoldBounds(n, 4);
    assert 0 * q == 0 && 1 * q == q && 2 * q == q + q && 3 * q == q + q + q && 4 * q == q + q + q + q;
    assert perm == perm[0..q] + perm[q..2 * q] + perm[2 * q..3 * q] + perm[3 * q..4 * q] + perm[4 * q..n];
  }

  /** With fewer than five rows the first four windows are empty, so the
      last fold trains on no rows at all. */
  lemma SmallDataLastFold(perm: seq<int>)
    requires |perm| < KFolds
    ensures FoldTraining(perm, KFolds - 1) == [] && FoldValidation(perm, KFolds - 1) == perm
    ensures forall k :: 0 <= k < KFolds - 1 ==> FoldValidation(perm, k) == [] && FoldTraining(perm, k) == perm
  {
  }

  // ---------------------------------------------------------------------------
  // Scores and the best candidate
  // ---------------------------------------------------------------------------

  /** The fold scores added up from 0.0 in fold order. */
  function SumScores(s: seq<Ext>): (r: Ext)
  {
    if |s| == 0 then Fin(0.0) else Add(SumScores(s[..|s| - 1]), s[|s| - 1])
  }

  /** The sum is finite exactly when every score is, and NaN exactly when
      some score is. */
  lemma {:induction false} SumScoresKind(s: seq<Ext>)
    ensures SumScores(s).Fin? <==> forall i :: 0 <= i < |s| ==> s[i].Fin?
    ensures SumScores(s).NaN? <==> exists i :: 0 <= i < |s| && s[i].NaN?
  {
    if |s| > 0 {
      var p := s[..|s| - 1];
      SumScoresKind(p);
      assert forall i :: 0 <= i < |p| ==> p[i] == s[i];
    }
  }

  /** The cross-validation loop of one iteration: the fold scores summed,
      then divided by the fold count. */
  method AverageScore(foldScores: seq<Ext>) returns (avg: Ext)
    ensures avg == DivPos(SumScores(foldScores), KFolds as real)
  {
    var total := Fin(0.0);
    for k := 0 to |foldScores|
      invariant total == SumScores(foldScores[..k])
    {
      assert foldScores[..k + 1][..k] == foldScores[..k];
      total := Add(total, foldScores[k]);
    }
    assert foldScores[..|foldScores|] == foldScores;
    avg := DivPos(total, KFolds as real);
  }

  /** Candidate b is the search's choice among the scores: a finite score
      that no earlier score equals or beats, and no later score beats. */
  ghost predicate FirstMinimum(scores: seq<Ext>, b: int)
  {
    0 <= b < |scores| && scores[b].Fin? &&
    (forall j :: 0 <= j < b ==> !(scores[j].Fin? && scores[j].v <= scores[b].v)) &&
    (forall j :: b < j < |scores| ==> !(scores[j].Fin? && scores[j].v < scores[b].v))
  }

  /** There is at most one such candidate. */
  lemma FirstMinimumUnique(scores: seq<Ext>, a: int, b: int)
    requires FirstMinimum(scores, a) && FirstMinimum(scores, b)
    ensures a == b
  {
  }

  /** The best tracking: bestScore starts at +infinity and a score replaces
      it only when strictly smaller, so NaN and +infinity never win and the
      earliest of equal scores is kept. */
  method SelectBest(scores: seq<Ext>) returns (found: bool, best: int, bestScore: Ext)
    ensures found <==> exists i :: 0 <= i < |scores| && scores[i].Fin?
    ensures found ==> FirstMinimum(scores, best) && bestScore == scores[best]
    ensures !found ==> bestScore == Inf
  {
    found, best, bestScore := false, 0, Inf;
    for i := 0 to |scores|
      invariant found <==> exists j :: 0 <= j < i && scores[j].Fin?
      invariant found ==> FirstMinimum(scores[..i], best) && bestScore == scores[best]
      invariant !found ==> bestScore == Inf
    {
      if Less(scores[i], bestScore) {
        found, best, bestScore := true, i, scores[i];
      }
    }
    assert scores[..|scores|] == scores;
  }

  // ---------------------------------------------------------------------------
  // The search
  // ---------------------------------------------------------------------------

  /** The generator's picks: per iteration one in-range index per list the
      model type reads. */
  predicate DrawsOk(draws: seq<seq<int>>, hyperParams: seq<seq<string>>, need: nat)
  {
    |draws| == MaxIterations &&
    forall it :: 0 <= it < |draws| ==>
      |draws[it]| == need &&
      forall l :: 0 <= l < need && l < |hyperParams| && |hyperParams[l]| > 0 ==> 0 <= draws[it][l] < |hyperParams[l]|
  }

  /** The candidate of one iteration: the drawn value of each list. */
  function Candidate(hyperParams: seq<seq<string>>, pick: seq<int>, need: nat): (c: seq<string>)
    requires need <= |hyperParams| && |pick| == need
    requires forall l :: 0 <= l < need ==> 0 <= pick[l] < |hyperParams[l]|
    ensures |c| == need && forall l :: 0 <= l < need ==> c[l] in hyperParams[l]
  {
    seq(need, l requires 0 <= l < need => hyperParams[l][pick[l]])
  }

  /** The iterations' cross-validation scores. */
  function IterationScores(foldScores: seq<seq<Ext>>): (s: seq<Ext>)
    ensures |s| == |foldScores|
  {
    seq(|foldScores|, it requires 0 <= it < |foldScores| => DivPos(SumScores(foldScores[it]), KFolds as real))
  }

  /** randomSearch: the checks; then 20 iterations of one candidate each,
      scored by 5-fold cross-validation; the answer is the first candidate
      with the smallest finite score, or none when no score is finite. */
  method RandomSearch(modelType: string, hyperParams: seq<seq<string>>, X: seq<seq<real>>, y: seq<real>,
                      draws: seq<seq<int>>, foldScores: seq<seq<Ext>>)
    returns (r: Result<Option<seq<string>>>)
    requires DrawsOk(draws, hyperParams, ListsNeeded(modelType))
    requires |foldScores| == MaxIterations && forall it :: 0 <= it < |foldScores| ==> |foldScores[it]| == KFolds
    ensures CheckSearch(modelType, hyperParams, |X|, |y|).Fail? ==>
      r == Err(CheckSearch(modelType, hyperParams, |X|, |y|).error)
    ensures CheckSearch(modelType, hyperParams, |X|, |y|).Pass? ==> r.Ok?
    ensures r == Ok(None) <==>
      CheckSearch(modelType, hyperParams, |X|, |y|).Pass? &&
      forall it :: 0 <= it < MaxIterations ==> !IterationScores(foldScores)[it].Fin?
    ensures r.Ok? && r.value.Some? ==>
      exists b :: FirstMinimum(IterationScores(foldScores), b) &&
        r.value.value == Candidate(hyperParams, draws[b], ListsNeeded(modelType))
  {
    var check := CheckSearch(modelType, hyperParams, |X|, |y|);
    if check.Fail? {
      return Err(check.error);
    }
    var need := ListsNeeded(modelType);
    var scores: seq<Ext> := [];
    for it := 0 to MaxIterations
      invariant |scores| == it && scores == IterationScores(foldScores)[..it]
    {
      var avg := AverageScore(foldScores[it]);
      scores := scores + [avg];
    }
    assert scores == IterationScores(foldScores);
    var found, best, _ := SelectBest(scores);
    if !found {
      return Ok(None);
    }
    r := Ok(Some(Candidate(hyperParams, draws[best], need)));
  }

  // ---------------------------------------------------------------------------
  // The factory object
  // ---------------------------------------------------------------------------

  class ClassicModelFactory {
    var trainFeaturesPath: string
    var trainTargetsPath: string
    var testFeaturesPath: string
    var testTargetsPath: string
    var trainType: string
    var testType: string

    /** The default factory: no paths, types train and test. */
    constructor()
      ensures trainFeaturesPath == "" && trainTargetsPath == "" && testFeaturesPath == "" &&
        testTargetsPath == "" && trainType == "train" && testType == "test"
    {
      trainFeaturesPath, trainTargetsPath := "", "";
      testFeaturesPath, testTargetsPath := "", "";
      trainType, testType := "train", "test";
    }

    /** The six-argument constructor stores its arguments unchecked. */
    constructor WithPaths(trainFeaturesPath: string, trainTargetsPath: string, testFeaturesPath: string,
                          testTargetsPath: string, trainType: string, testType: string)
      ensures this.trainFeaturesPath == trainFeaturesPath && this.trainTargetsPath == trainTargetsPath &&
        this.testFeaturesPath == testFeaturesPath && this.testTargetsPath == testTargetsPath &&
        this.trainType == trainType && this.testType == testType
    {
      this.trainFeaturesPath, this.trainTargetsPath := trainFeaturesPath, trainTargetsPath;
      this.testFeaturesPath, this.testTargetsPath := testFeaturesPath, testTargetsPath;
      this.trainType, this.testType := trainType, testType;
    }

    /** setTrainDataPaths: an invalid type is rejected before any change;
        otherwise exactly the three train fields are replaced. */
    method SetTrainDataPaths(featuresPath: string, targetsPath: string, t: string) returns (r: Outcome)
      modifies this
      ensures r == EnsureTypeValid(t, "train")
      ensures r.Fail? ==> unchanged(this)
      ensures r.Pass? ==> trainFeaturesPath == featuresPath && trainTargetsPath == targetsPath && trainType == t
      ensures r.Pass? ==> testFeaturesPath == old(testFeaturesPath)
      ensures r.Pass? ==> testTargetsPath == old(testTargetsPath) && testType == old(testType)
    {
      r := EnsureTypeValid(t, "train");
      if r.Fail? {
        return;
      }
      trainFeaturesPath, trainTargetsPath, trainType := featuresPath, targetsPath, t;
    }

    /** setTestDataPaths: an invalid type is rejected before any change;
        otherwise exactly the three test fields are replaced. */
    method SetTestDataPaths(featuresPath: string, targetsPath: string, t: string) returns (r: Outcome)
      modifies this
      ensures r == EnsureTypeValid(t, "test")
      ensures r.Fail? ==> unchanged(this)
      ensures r.Pass? ==> testFeaturesPath == featuresPath && testTargetsPath == targetsPath && testType == t
      ensures r.Pass? ==> trainFeaturesPath == old(trainFeaturesPath)
      ensures r.Pass? ==> trainTargetsPath == old(trainTargetsPath) && trainType == old(trainType)
    {
      r := EnsureTypeValid(t, "test");
      if r.Fail? {
        return;
      }
      testFeaturesPath, testTargetsPath, testType := featuresPath, targetsPath, t;
    }

    function GetTrainFeaturesPath(): (p: string)
      reads this
      ensures p == trainFeaturesPath
    {
      trainFeaturesPath
    }

    function GetTrainTargetsPath(): (p: string)
      reads this
      ensures p == trainTargetsPath
    {
      trainTargetsPath
    }

    function GetTrainType(): (t: string)
      reads this
      ensures t == trainType
    {
      trainType
    }

    function GetTestFeaturesPath(): (p: string)
      reads this
      ensures p == testFeaturesPath
    {
      testFeaturesPath
    }

    function GetTestTargetsPath(): (p: string)
      reads this
      ensures p == testTargetsPath
    {
      testTargetsPath
    }

    function GetTestType(): (t: string)
      reads this
      ensures t == testType
    {
      testType
    }

    method LoadTrainFeatures(read: Option<(seq<string>, seq<real>)>) returns (r: Result<Dataset>)
      ensures EnsurePathSet(trainFeaturesPath, "train features").Fail? ==>
        r == Err(EnsurePathSet(trainFeaturesPath, "train features").error)
      ensures trainFeaturesPath != "" && EnsureTypeValid(trainType, "train").Fail? ==>
        r == Err(EnsureTypeValid(trainType, "train").error)
      ensures trainFeaturesPath != "" && ValidType(trainType) ==>
        r.Ok? && fresh(r.value) && r.value.filePath == trainFeaturesPath && r.value.kind == trainType && ReadInto(r.value, read)
    {
      r := Load(trainFeaturesPath, trainType, "train features", "train", read);
    }

    method LoadTrainTargets(read: Option<(seq<string>, seq<real>)>) returns (r: Result<Dataset>)
      ensures EnsurePathSet(trainTargetsPath, "train targets").Fail? ==>
        r == Err(EnsurePathSet(trainTargetsPath, "train targets").error)
      ensures trainTargetsPath != "" && EnsureTypeValid(trainType, "train").Fail? ==>
        r == Err(EnsureTypeValid(trainType, "train").error)
      ensures trainTargetsPath != "" && ValidType(trainType) ==>
        r.Ok? && fresh(r.value) && r.value.filePath == trainTargetsPath && r.value.kind == trainType && ReadInto(r.value, read)
    {
      r := Load(trainTargetsPath, trainType, "train targets", "train", read);
    }

    method LoadTestFeatures(read: Option<(seq<string>, seq<real>)>) returns (r: Result<Dataset>)
      ensures EnsurePathSet(testFeaturesPath, "test features").Fail? ==>
        r == Err(EnsurePathSet(testFeaturesPath, "test features").error)
      ensures testFeaturesPath != "" && EnsureTypeValid(testType, "test").Fail? ==>
        r == Err(EnsureTypeValid(testType, "test").error)
      ensures testFeaturesPath != "" && ValidType(testType) ==>
        r.Ok? && fresh(r.value) && r.value.filePath == testFeaturesPath && r.value.kind == testType && ReadInto(r.value, read)
    {
      r := Load(testFeaturesPath, testType, "test features", "test", read);
    }

    method LoadTestTargets(read: Option<(seq<string>, seq<real>)>) returns (r: Result<Dataset>)
      ensures EnsurePathSet(testTargetsPath, "test targets").Fail? ==>
        r == Err(EnsurePathSet(testTargetsPath, "test targets").error)
      ensures testTargetsPath != "" && EnsureTypeValid(testType, "test").Fail? ==>
        r == Err(EnsureTypeValid(testType, "test").error)
      ensures testTargetsPath != "" && ValidType(testType) ==>
        r.Ok? && fresh(r.value) && r.value.filePath == testTargetsPath && r.value.kind == testType && ReadInto(r.value, read)
    {
      r := Load(testTargetsPath, testType, "test targets", "test", read);
    }

    /** createRandomForestModel: the builder with maxFeatures 0, bootstrap
        on and randomState 0 fixed. */
    method CreateRandomForestModel(nEstimators: int, maxDepth: int, minSamplesSplit: int, isClassification: bool)
      returns (r: Result<RandomForest>)
      ensures nEstimators <= 0 ==> r == Err(InvalidArgument(RandomForestModel.CtorEstimatorsMsg))
      ensures nEstimators > 0 && minSamplesSplit < 2 ==> r == Err(InvalidArgument(CtorMinSplitMsg))
      ensures nEstimators > 0 && minSamplesSplit >= 2 ==>
        r.Ok? && fresh(r.value) && !r.value.isFitted && r.value.nEstimators == nEstimators &&
        r.value.maxDepth == maxDepth && r.value.minSamplesSplit == minSamplesSplit &&
        r.value.maxFeatures == 0 && r.value.bootstrap && r.value.randomState == 0 &&
        r.value.isClassification == isClassification
    {
      var b := new RandomForestBuilder();
      b.SetEstimators(nEstimators);
      b.SetMaxDepth(maxDepth);
      b.SetMinSamplesSplit(minSamplesSplit);
      b.SetMaxFeatures(0);
      b.SetBootstrap(true);
      b.SetRandomState(0);
      b.SetIsClassification(isClassification);
      r := b.Build();
    }

    /** createXGBoostModel: the builder with every argument set. */
    method CreateXGBoostModel(nEstimators: int, learningRate: real, maxDepth: int, subsampleRatio: real,
                              gamma: real, regularization: string, isClassification: bool)
      returns (r: Result<XGBoostModel>)
      ensures !(0.0 < subsampleRatio <= 1.0) ==> r == Err(InvalidArgument(CtorSubsampleMsg))
      ensures 0.0 < subsampleRatio <= 1.0 && nEstimators <= 0 ==>
        r == Err(InvalidArgument(XGBoost.CtorEstimatorsMsg))
      ensures 0.0 < subsampleRatio <= 1.0 && nEstimators > 0 && maxDepth <= 0 ==>
        r == Err(InvalidArgument(CtorDepthMsg))
      ensures 0.0 < subsampleRatio <= 1.0 && nEstimators > 0 && maxDepth > 0 && learningRate <= 0.0 ==>
        r == Err(InvalidArgument(CtorRateMsg))
      ensures 0.0 < subsampleRatio <= 1.0 && nEstimators > 0 && maxDepth > 0 && learningRate > 0.0 ==>
        r.Ok? && fresh(r.value) && !r.value.isFitted &&
        r.value.nEstimators == nEstimators && r.value.learningRate == learningRate &&
        r.value.maxDepth == maxDepth && r.value.subsampleRatio == subsampleRatio &&
        r.value.gamma == gamma && r.value.regularization == regularization &&
        r.value.isClassification == isClassification
    {
      var b := new XGBoostBuilder();
      b.SetNEstimators(nEstimators);
      b.SetLearningRate(learningRate);
      b.SetMaxDepth(maxDepth);
      b.SetSubsampleRatio(subsampleRatio);
      b.SetGamma(gamma);
      b.SetRegularization(regularization);
      b.SetIsClassification(isClassification);
      r := b.Build();
    }
  }

  /** The body shared by the four loaders: the path check, then the type
      check, then the file constructor (whose own type check then passes). */
  method Load(path: string, t: string, pathWhat: string, typeWhat: string, read: Option<(seq<string>, seq<real>)>)
    returns (r: Result<Dataset>)
    ensures EnsurePathSet(path, pathWhat).Fail? ==> r == Err(EnsurePathSet(path, pathWhat).error)
    ensures path != "" && EnsureTypeValid(t, typeWhat).Fail? ==> r == Err(EnsureTypeValid(t, typeWhat).error)
    ensures path != "" && ValidType(t) ==>
      r.Ok? && fresh(r.value) && r.value.filePath == path && r.value.kind == t && ReadInto(r.value, read)
  {
    var p := EnsurePathSet(path, pathWhat);
    if p.Fail? {
      return Err(p.error);
    }
    var c := EnsureTypeValid(t, typeWhat);
    if c.Fail? {
      return Err(c.error);
    }
    r := NewFromFile(path, t, read);
  }
}
