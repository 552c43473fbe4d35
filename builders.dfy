/** The three builders (DecisionTreeBuilder, RandomForestBuilder,
    XGBoostBuilder): records of constructor arguments with a default for
    each, one setter per field and a build that hands every field to the
    model's constructor. A setter returns the builder itself for chaining
    in the source; here a setter is a method on the builder, and the caller
    chains by calling the next one. */
module Builders {
  import opened Wrappers
  import opened Impurity
  import opened SplitSearch
  import opened TreeGrowth
  import opened DecisionTreeModel
  import opened RandomForestModel
  import opened XGBoost

  const BuilderDepthMsg := "maxDepth must be a positive integer."
  const BuilderMinSplitMsg := "minSamplesSplit must be at least 2."

  /** DecisionTreeBuilder: depth 10, minSamplesSplit 2, regression by
      default; the two integer setters reject out-of-range values. */
  class DecisionTreeBuilder {
    var maxDepth: int
    var minSamplesSplit: int
    var isClassification: bool

    /** The defaults; every value a setter accepts keeps `Valid`. */
    ghost predicate Valid()
      reads this
    {
      maxDepth > 0 && minSamplesSplit >= 2
    }

    constructor()
      ensures Valid()
      ensures maxDepth == 10 && minSamplesSplit == 2 && !isClassification
    {
      maxDepth := 10;
      minSamplesSplit := 2;
      isClassification := false;
    }

    /** setMaxDepth: values <= 0 are rejected and change nothing. */
    method SetMaxDepth(v: int) returns (r: Outcome)
      requires Valid()
      modifies this
      ensures Valid()
      ensures v <= 0 ==> r == Fail(InvalidArgument(BuilderDepthMsg)) && unchanged(this)
      ensures v > 0 ==> r == Pass && maxDepth == v
      ensures v > 0 ==> minSamplesSplit == old(minSamplesSplit) && isClassification == old(isClassification)
    {
      if v <= 0 {
        return Fail(InvalidArgument(BuilderDepthMsg));
      }
      maxDepth := v;
      r := Pass;
    }

    /** setMinSamplesSplit: values < 2 are rejected and change nothing. */
    method SetMinSamplesSplit(v: int) returns (r: Outcome)
      requires Valid()
      modifies this
      ensures Valid()
      ensures v < 2 ==> r == Fail(InvalidArgument(BuilderMinSplitMsg)) && unchanged(this)
      ensures v >= 2 ==> r == Pass && minSamplesSplit == v
      ensures v >= 2 ==> maxDepth == old(maxDepth) && isClassification == old(isClassification)
    {
      if v < 2 {
        return Fail(InvalidArgument(BuilderMinSplitMsg));
      }
      minSamplesSplit := v;
      r := Pass;
    }

    /** setIsClassification: only the flag changes. */
    method SetIsClassification(v: bool)
      modifies this
      ensures isClassification == v && maxDepth == old(maxDepth) && minSamplesSplit == old(minSamplesSplit)
    {
      isClassification := v;
    }

    /** build: an empty tree with the current three fields. */
    method Build() returns (t: DecisionTree)
      ensures fresh(t) && t.Valid() && !t.isFitted && t.nNodes == 0
      ensures t.maxDepth == maxDepth && t.minSampleSplit == minSamplesSplit &&
        t.isClassification == isClassification
    {
      t := new DecisionTree(maxDepth, minSamplesSplit, isClassification);
    }
  }

  /** RandomForestBuilder: 100 trees, maxDepth -1, minSamplesSplit 2,
      maxFeatures 0 (resolved at fit), bootstrap on, randomState 0,
      regression by default; the setters store any value, and the forest's
      constructor checks them at build time. */
  class RandomForestBuilder {
    var nEstimators: int
    var maxDepth: int
    var minSamplesSplit: int
    var maxFeatures: int
    var bootstrap: bool
    var randomState: int
    var isClassification: bool

    constructor()
      ensures nEstimators == 100 && maxDepth == -1 && minSamplesSplit == 2 && maxFeatures == 0 &&
        bootstrap && randomState == 0 && !isClassification
    {
      nEstimators := 100;
      maxDepth := -1;
      minSamplesSplit := 2;
      maxFeatures := 0;
      bootstrap := true;
      randomState := 0;
      isClassification := false;
    }

    method SetEstimators(v: int)
      modifies this
      ensures nEstimators == v
      ensures maxDepth == old(maxDepth) && minSamplesSplit == old(minSamplesSplit) &&
        maxFeatures == old(maxFeatures) && bootstrap == old(bootstrap) &&
        randomState == old(randomState) && isClassification == old(isClassification)
    {
      nEstimators := v;
    }

    method SetMaxDepth(v: int)
      modifies this
      ensures maxDepth == v
      ensures nEstimators == old(nEstimators) && minSamplesSplit == old(minSamplesSplit) &&
        maxFeatures == old(maxFeatures) && bootstrap == old(bootstrap) &&
        randomState == old(randomState) && isClassification == old(isClassification)
    {
      maxDepth := v;
    }

    method SetMinSamplesSplit(v: int)
      modifies this
      ensures minSamplesSplit == v
      ensures nEstimators == old(nEstimators) && maxDepth == old(maxDepth) &&
        maxFeatures == old(maxFeatures) && bootstrap == old(bootstrap) &&
        randomState == old(randomState) && isClassification == old(isClassification)
    {
      minSamplesSplit := v;
    }

    method SetMaxFeatures(v: int)
      modifies this
      ensures maxFeatures == v
      ensures nEstimators == old(nEstimators) && maxDepth == old(maxDepth) &&
        minSamplesSplit == old(minSamplesSplit) && bootstrap == old(bootstrap) &&
        randomState == old(randomState) && isClassification == old(isClassification)
    {
      maxFeatures := v;
    }

    method SetBootstrap(v: bool)
      modifies this
      ensures bootstrap == v
      ensures nEstimators == old(nEstimators) && maxDepth == old(maxDepth) &&
        minSamplesSplit == old(minSamplesSplit) && maxFeatures == old(maxFeatures) &&
        randomState == old(randomState) && isClassification == old(isClassification)
    {
      bootstrap := v;
    }

    method SetRandomState(v: int)
      modifies this
      ensures randomState == v
      ensures nEstimators == old(nEstimators) && maxDepth == old(maxDepth) &&
        minSamplesSplit == old(minSamplesSplit) && maxFeatures == old(maxFeatures) &&
        bootstrap == old(bootstrap) && isClassification == old(isClassification)
    {
      randomState := v;
    }

    method SetIsClassification(v: bool)
      modifies this
      ensures isClassification == v
      ensures nEstimators == old(nEstimators) && maxDepth == old(maxDepth) &&
        minSamplesSplit == old(minSamplesSplit) && maxFeatures == old(maxFeatures) &&
        bootstrap == old(bootstrap) && randomState == old(randomState)
    {
      isClassification := v;
    }

    /** build: the forest constructor on all seven fields, so an estimator
        count <= 0 or a minSamplesSplit < 2 is rejected here. */
    method Build() returns (r: Result<RandomForest>)
      ensures nEstimators <= 0 ==> r == Err(InvalidArgument(RandomForestModel.CtorEstimatorsMsg))
      ensures nEstimators > 0 && minSamplesSplit < 2 ==> r == Err(InvalidArgument(CtorMinSplitMsg))
      ensures nEstimators > 0 && minSamplesSplit >= 2 ==>
        r.Ok? && fresh(r.value) && r.value.Valid() && !r.value.isFitted &&
        r.value.nEstimators == nEstimators && r.value.maxDepth == maxDepth &&
        r.value.minSamplesSplit == minSamplesSplit && r.value.maxFeatures == maxFeatures &&
        r.value.bootstrap == bootstrap && r.value.randomState == randomState &&
        r.value.isClassification == isClassification
    {
      r := NewForest(nEstimators, maxDepth, minSamplesSplit, maxFeatures, bootstrap, randomState,
                     isClassification);
    }
  }

  /** XGBoostBuilder: 100 rounds, learning rate 0.1, depth 3, subsample
      1.0, gamma 0, "L2", regression by default; the setters store any
      value, and the model's constructor checks them at build time. */
  class XGBoostBuilder {
    var nEstimators: int
    var learningRate: real
    var maxDepth: int
    var subsampleRatio: real
    var gamma: real
    var regularization: string
    var isClassification: bool

    constructor()
      ensures nEstimators == 100 && learningRate == 0.1 && maxDepth == 3 && subsampleRatio == 1.0 &&
        gamma == 0.0 && regularization == "L2" && !isClassification
    {
      nEstimators := 100;
      learningRate := 0.1;
      maxDepth := 3;
      subsampleRatio := 1.0;
      gamma := 0.0;
      regularization := "L2";
      isClassification := false;
    }

    method SetNEstimators(v: int)
      modifies this
      ensures nEstimators == v
      ensures learningRate == old(learningRate) && maxDepth == old(maxDepth) &&
        subsampleRatio == old(subsampleRatio) && gamma == old(gamma) &&
        regularization == old(regularization) && isClassification == old(isClassification)
    {
      nEstimators := v;
    }

    method SetLearningRate(v: real)
      modifies this
      ensures learningRate == v
      ensures nEstimators == old(nEstimators) && maxDepth == old(maxDepth) &&
        subsampleRatio == old(subsampleRatio) && gamma == old(gamma) &&
        regularization == old(regularization) && isClassification == old(isClassification)
    {
      learningRate := v;
    }

    method SetMaxDepth(v: int)
      modifies this
      ensures maxDepth == v
      ensures nEstimators == old(nEstimators) && learningRate == old(learningRate) &&
        subsampleRatio == old(subsampleRatio) && gamma == old(gamma) &&
        regularization == old(regularization) && isClassification == old(isClassification)
    {
      maxDepth := v;
    }

    method SetSubsampleRatio(v: real)
      modifies this
      ensures subsampleRatio == v
      ensures nEstimators == old(nEstimators) && learningRate == old(learningRate) &&
        maxDepth == old(maxDepth) && gamma == old(gamma) &&
        regularization == old(regularization) && isClassification == old(isClassification)
    {
      subsampleRatio := v;
    }

    method SetGamma(v: real)
      modifies this
      ensures gamma == v
      ensures nEstimators == old(nEstimators) && learningRate == old(learningRate) &&
        maxDepth == old(maxDepth) && subsampleRatio == old(subsampleRatio) &&
        regularization == old(regularization) && isClassification == old(isClassification)
    {
      gamma := v;
    }

    method SetRegularization(v: string)
      modifies this
      ensures regularization == v
      ensures nEstimators == old(nEstimators) && learningRate == old(learningRate) &&
        maxDepth == old(maxDepth) && subsampleRatio == old(subsampleRatio) &&
        gamma == old(gamma) && isClassification == old(isClassification)
    {
      regularization := v;
    }

    method SetIsClassification(v: bool)
      modifies this
      ensures isClassification == v
      ensures nEstimators == old(nEstimators) && learningRate == old(learningRate) &&
        maxDepth == old(maxDepth) && subsampleRatio == old(subsampleRatio) &&
        gamma == old(gamma) && regularization == old(regularization)
    {
      isClassification := v;
    }

    /** build: the model constructor on all seven fields, with its four
        checks in its order. */
    method Build() returns (r: Result<XGBoostModel>)
      ensures !(0.0 < subsampleRatio <= 1.0) ==> r == Err(InvalidArgument(CtorSubsampleMsg))
      ensures 0.0 < subsampleRatio <= 1.0 && nEstimators <= 0 ==>
        r == Err(InvalidArgument(XGBoost.CtorEstimatorsMsg))
      ensures 0.0 < subsampleRatio <= 1.0 && nEstimators > 0 && maxDepth <= 0 ==>
        r == Err(InvalidArgument(CtorDepthMsg))
      ensures 0.0 < subsampleRatio <= 1.0 && nEstimators > 0 && maxDepth > 0 && learningRate <= 0.0 ==>
        r == Err(InvalidArgument(CtorRateMsg))
      ensures 0.0 < subsampleRatio <= 1.0 && nEstimators > 0 && maxDepth > 0 && learningRate > 0.0 ==>
        r.Ok? && fresh(r.value) && r.value.Valid() && !r.value.isFitted &&
        r.value.nEstimators == nEstimators && r.value.learningRate == learningRate &&
        r.value.maxDepth == maxDepth && r.value.subsampleRatio == subsampleRatio &&
        r.value.gamma == gamma && r.value.regularization == regularization &&
        r.value.isClassification == isClassification
    {
      r := NewXGBoost(nEstimators, learningRate, maxDepth, subsampleRatio, gamma, regularization,
                      isClassification);
    }
  }

  /** A forest with the builder's default depth -1 grows one-leaf trees:
      whatever a tree's sample, its model is the leaf of that sample. */
  lemma DefaultDepthStumps(b: RandomForestBuilder, isClassification: bool,
                           Xs: seq<seq<real>>, Ys: seq<real>, p: int)
    requires b.maxDepth == -1 && WellFormed(Xs, Ys, p)
    ensures FitModel(isClassification, b.maxDepth, b.minSamplesSplit, Xs, Ys, p) ==
      Leaf(LeafValue(isClassification, Ys))
  {
    NegativeDepthStumps(isClassification, b.maxDepth, b.minSamplesSplit, Xs, Ys, p);
  }
}
