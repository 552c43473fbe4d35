/** The random forest: nEstimators decision trees, each fitted on a
    bootstrap sample (or on every row in order), combined by the mean of
    their outputs for regression and by a majority vote over the rounded
    outputs for classification. The generator's draws are parameters. */
module RandomForestModel {
  import opened Wrappers
  import opened Numeric
  import opened Impurity
  import opened SplitSearch
  import opened TreeGrowth
  import opened Layout
  import opened DecisionTreeModel

  const CtorEstimatorsMsg := "RandomForest: nEstimators must be > 0"
  const CtorMinSplitMsg := "RandomForest: minSamplesSplit must be >= 2"
  const FitEmptyMsg := "fit: X is empty"
  const FitSizeMsg := "fit: X and Y size mismatch"
  const FitNoFeatureMsg := "fit: X must have at least one feature"
  const FitRaggedMsg := "fit: inconsistent feature dimensions in X"
  const NotFittedMsg := "predict: model is not fitted"
  const InputWidthMsg := "predict: input dimension does not match training data"
  const FlatEmptyMsg := "Input vectors cannot be empty."
  const FlatMultipleMsg := "The size of x_values is not a multiple of the number of columns."
  const OneHotMsg := "Number of samples in features and targets do not match (and not valid one-hot)."
  const FewTargetsMsg := "Number of targets is less than number of feature rows."

  // ---------------------------------------------------------------------------
  // Hyperparameters
  // ---------------------------------------------------------------------------

  /** The per-fit resolution of maxFeatures for p features: 0 means
      floor(sqrt(p)) kept within [1, p], any other value is clamped to [1, p]. */
  function ResolveMaxFeatures(maxFeatures: int, p: int): (r: int)
    requires p > 0
    ensures 1 <= r <= p
    ensures maxFeatures == 0 ==> r * r <= p < (r + 1) * (r + 1)
    ensures 1 <= maxFeatures <= p ==> r == maxFeatures
    ensures maxFeatures > p ==> r == p
    ensures maxFeatures < 0 ==> r == 1
  {
    if maxFeatures == 0 then
      var s := IntSqrt(p);
      SqrtBelow(p, s);
      Clamp(s, 1, p)
    else Clamp(maxFeatures, 1, p)
  }

  lemma SqrtBelow(p: nat, s: nat)
    requires p > 0 && s * s <= p < (s + 1) * (s + 1)
    ensures 1 <= s <= p
  {
    NatBelowSquare(s);
  }

  lemma NatBelowSquare(s: nat)
    ensures s <= s * s
  {
  }

  // ---------------------------------------------------------------------------
  // Samples
  // ---------------------------------------------------------------------------

  /** The generator's bootstrap draws for the trees of one fit: one list of
      n row numbers in [0, n) per tree. */
  predicate DrawsOk(bootstrap: bool, nEstimators: int, draws: seq<seq<int>>, n: int)
  {
    bootstrap ==>
      |draws| == nEstimators &&
      forall t :: 0 <= t < |draws| ==> |draws[t]| == n && ValidIdx(draws[t], n)
  }

  /** The rows tree t sees: its bootstrap draw, or every row in order. */
  function SampleRows(bootstrap: bool, draw: seq<int>, n: nat): seq<int>
  {
    if bootstrap then draw else Range(n)
  }

  /** The rows tree i of one fit is grown on: its bootstrap draw, or every row. */
  function DrawRows(bootstrap: bool, draws: seq<seq<int>>, i: nat, n: nat): (rows: seq<int>)
    requires DrawsOk(bootstrap, |draws|, draws, n) && (bootstrap ==> i < |draws|)
    ensures ValidIdx(rows, n)
    ensures |rows| == n
  {
    SampleRows(bootstrap, if bootstrap then draws[i] else [], n)
  }

  /** With the default maxDepth of -1 every tree is the single leaf of its
      whole sample: depth 0 is already at the limit. */
  lemma NegativeDepthStumps(isClassification: bool, maxDepth: int, minSamplesSplit: int,
                            Xs: seq<seq<real>>, Ys: seq<real>, p: int)
    requires WellFormed(Xs, Ys, p) && maxDepth < 0
    ensures FitModel(isClassification, maxDepth, minSamplesSplit, Xs, Ys, p) ==
      Leaf(LeafValue(isClassification, Ys))
  {
    GrowAtDepthLimit(isClassification, maxDepth, minSamplesSplit, Xs, Ys, p, Range(|Xs|), 0);
    IdentitySample(Xs, Ys);
  }

  /** sampleBootstrap: n draws of the uniform generator over [0, n - 1];
      none for n <= 0. */
  method SampleBootstrap(n: int, draw: seq<int>) returns (idx: seq<int>)
    requires n > 0 ==> |draw| == n && ValidIdx(draw, n)
    ensures n <= 0 ==> idx == []
    ensures n > 0 ==> idx == draw
    ensures ValidIdx(idx, n)
  {
    if n <= 0 {
      return [];
    }
    idx := [];
    for i := 0 to n
      invariant idx == draw[..i]
    {
      idx := idx + [draw[i]];
    }
    assert draw[..n] == draw;
  }

  /** sampleFeatures: the first min(k, p) entries of a shuffle of the p
      feature numbers (the shuffle is the generator's `perm`), so that many
      distinct features in [0, p); none when p <= 0 or k <= 0. */
  method SampleFeatures(p: int, k: int, perm: seq<int>) returns (feats: seq<int>)
    requires p > 0 ==> multiset(perm) == multiset(Range(p))
    ensures p <= 0 || k <= 0 ==> feats == []
    ensures p > 0 && k > 0 ==> |feats| == Clamp(k, 1, p) == (if k < p then k else p) && feats <= perm
    ensures forall i :: 0 <= i < |feats| ==> 0 <= feats[i] < p
    ensures forall i, j :: 0 <= i < j < |feats| ==> feats[i] != feats[j]
  {
    if p <= 0 || k <= 0 {
      return [];
    }
    var kk := Clamp(k, 1, p);
    var all := Iota(p);
    assert multiset(perm) == multiset(all);
    PermutationOfRange(perm, p);
    feats := perm[..kk];
  }

  // ---------------------------------------------------------------------------
  // Aggregation
  // ---------------------------------------------------------------------------

  /** The trees' outputs on x, in tree order. */
  ghost function Outputs(models: seq<Tree>, x: seq<real>): (r: seq<real>)
    requires AllBelow(models, |x|)
    ensures |r| == |models|
  {
    if |models| == 0 then []
    else Outputs(models[..|models| - 1], x) + [Eval(models[|models| - 1], x)]
  }

  /** Output i is tree i's prediction. */
  lemma {:induction false} OutputsAt(models: seq<Tree>, x: seq<real>)
    requires AllBelow(models, |x|)
    ensures forall i :: 0 <= i < |models| ==> Outputs(models, x)[i] == Eval(models[i], x)
  {
    if |models| > 0 {
      OutputsAt(models[..|models| - 1], x);
    }
  }

  /** std::round of every output. */
  function RoundAll(v: seq<real>): (r: seq<int>)
    ensures |r| == |v| && forall i :: 0 <= i < |v| ==> r[i] == Round(v[i])
  {
    if |v| == 0 then [] else RoundAll(v[..|v| - 1]) + [Round(v[|v| - 1])]
  }

  /** The majority vote: the label -> count table visited in ascending label
      order, keeping a label only on a strictly larger count, from (-1, -1). */
  ghost function Vote(labels: seq<int>): int
  {
    var counts := CountMap(labels);
    ScanMax(counts, SortedInts(counts.Keys), -1, -1)
  }

  /** The forest's prediction from its trees' outputs. */
  ghost function Aggregate(isClassification: bool, outs: seq<real>): real
    requires |outs| > 0
  {
    if isClassification then Vote(RoundAll(outs)) as real else Mean(outs)
  }

  lemma IntIncreasingIndexOrder(keys: seq<int>, j: nat, i: nat)
    requires forall a, b :: 0 <= a < b < |keys| ==> keys[a] < keys[b]
    requires j < |keys| && i < |keys| && keys[j] < keys[i]
    ensures j < i
  {
  }

  lemma VoteIndex(counts: map<int, nat>, keys: seq<int>) returns (i: nat)
    requires forall j :: 0 <= j < |keys| ==> keys[j] in counts
    requires |keys| > 0
    ensures i < |keys| && keys[i] == ScanMax(counts, keys, -1, -1)
    ensures forall j :: 0 <= j < |keys| ==> counts[keys[j]] <= counts[keys[i]]
    ensures forall j :: 0 <= j < i ==> counts[keys[j]] < counts[keys[i]]
  {
    ScanMaxSpec(counts, keys, -1, -1);
    var r := ScanMax(counts, keys, -1, -1);
    assert counts[keys[0]] > -1;
    i :| 0 <= i < |keys| && keys[i] == r && -1 < counts[r] &&
      (forall j :: 0 <= j < |keys| ==> counts[keys[j]] <= counts[r]) &&
      (forall j :: 0 <= j < i ==> counts[keys[j]] < counts[r]);
  }

  /** ScanMax from (-1, -1) over the ascending distinct labels, stated on the
      label sequence alone. */
  lemma ScanMaxOfVotes(labels: seq<int>, counts: map<int, nat>, keys: seq<int>)
    requires |labels| > 0
    requires forall j :: 0 <= j < |keys| ==> keys[j] in counts && counts[keys[j]] == Count(labels, keys[j])
    requires forall j :: 0 <= j < |keys| ==> keys[j] in labels
    requires forall y :: y in labels ==> y in keys
    requires forall a, b :: 0 <= a < b < |keys| ==> keys[a] < keys[b]
    ensures var r := ScanMax(counts, keys, -1, -1);
      r in labels &&
      (forall y :: Count(labels, y) <= Count(labels, r)) &&
      (forall y :: y in labels && y < r ==> Count(labels, y) < Count(labels, r))
  {
    var first := labels[0];
    assert first in labels;
    assert first in keys;
    var i := VoteIndex(counts, keys);
    var r := keys[i];
    forall y ensures Count(labels, y) <= Count(labels, r) {
      CountBounds(labels, y);
      if y in labels {
        var j :| 0 <= j < |keys| && keys[j] == y;
        assert counts[keys[j]] <= counts[r];
      }
    }
    forall y | y in labels && y < r ensures Count(labels, y) < Count(labels, r) {
      var j :| 0 <= j < |keys| && keys[j] == y;
      IntIncreasingIndexOrder(keys, j, i);
      assert counts[keys[j]] < counts[r];
    }
  }

  /** The vote is a most frequent label, and every smaller label is strictly
      less frequent: ties go to the smallest label. */
  lemma VoteIsSmallestMostFrequent(labels: seq<int>)
    requires |labels| > 0
    ensures Vote(labels) in labels
    ensures forall y :: Count(labels, y) <= Count(labels, Vote(labels))
    ensures forall y :: y in labels && y < Vote(labels) ==> Count(labels, y) < Count(labels, Vote(labels))
  {
    var counts, keys := VoteKeys(labels);
    ScanMaxOfVotes(labels, counts, keys);
  }

  /** The table and the ascending keys the vote scans: the distinct labels,
      each with its count. */
  lemma VoteKeys(labels: seq<int>) returns (counts: map<int, nat>, keys: seq<int>)
    ensures counts == CountMap(labels) && keys == SortedInts(counts.Keys)
    ensures forall j :: 0 <= j < |keys| ==> keys[j] in counts && counts[keys[j]] == Count(labels, keys[j])
    ensures forall j :: 0 <= j < |keys| ==> keys[j] in labels
    ensures forall y :: y in labels ==> y in keys
    ensures forall a, b :: 0 <= a < b < |keys| ==> keys[a] < keys[b]
  {
    counts := CountMap(labels);
    keys := SortedInts(counts.Keys);
    SortedIntsIncreasing(counts.Keys);
    forall j | 0 <= j < |keys| ensures keys[j] in counts && counts[keys[j]] == Count(labels, keys[j]) && keys[j] in labels {
      assert keys[j] in keys;
    }
    forall y | y in labels ensures y in keys {
      assert y in counts.Keys;
    }
  }

  /** A unanimous forest predicts the common output (for classification, an
      output that is already a whole number). */
  lemma UnanimousForest(isClassification: bool, outs: seq<real>, c: real)
    requires |outs| > 0 && forall i :: 0 <= i < |outs| ==> outs[i] == c
    requires isClassification ==> c == (Round(c) as real)
    ensures Aggregate(isClassification, outs) == c
  {
    if isClassification {
      var labels := RoundAll(outs);
      VoteIsSmallestMostFrequent(labels);
      var v := Vote(labels);
      assert v in labels;
      var k :| 0 <= k < |labels| && labels[k] == v;
      assert v == Round(c);
    } else {
      SumConst(outs, c);
    }
  }

  /** meanOf: the running sum of the outputs divided by their number, NaN
      when there are none. */
  method MeanOf(v: seq<real>) returns (m: Ext)
    ensures |v| == 0 ==> m == NaN
    ensures |v| > 0 ==> m == Fin(Mean(v))
  {
    if |v| == 0 {
      return NaN;
    }
    var s := 0.0;
    for i := 0 to |v|
      invariant s == Sum(v[..i])
    {
      assert v[..i + 1][..i] == v[..i];
      s := s + v[i];
    }
    assert v[..|v|] == v;
    m := Fin(s / (|v| as real));
  }

  /** The vote table of predict: `counts[round(p)]++` for every tree output. */
  method CountVotes(outs: seq<real>) returns (counts: map<int, nat>)
    ensures counts == CountMap(RoundAll(outs))
  {
    counts := map[];
    ghost var seen: seq<int> := [];
    for i := 0 to |outs|
      invariant |seen| == i && forall k :: 0 <= k < i ==> seen[k] == Round(outs[k])
      invariant counts == CountMap(seen)
    {
      var vote := Round(outs[i]);
      CountMapSnoc(seen, vote);
      counts := counts[vote := if vote in counts then counts[vote] + 1 else 1];
      seen := seen + [vote];
    }
    assert seen == RoundAll(outs);
  }

  /** The scan of the vote table in ascending label order from
      bestLabel = -1, maxCount = -1, moving only on a strictly larger count. */
  method MajorityLabel(counts: map<int, nat>) returns (bestLabel: int)
    ensures bestLabel == ScanMax(counts, SortedInts(counts.Keys), -1, -1)
  {
    bestLabel := -1;
    var maxCount: int := -1;
    var rest := counts.Keys;
    ghost var total := ScanMax(counts, SortedInts(counts.Keys), -1, -1);
    while rest != {}
      invariant rest <= counts.Keys
      invariant ScanMax(counts, SortedInts(rest), bestLabel, maxCount) == total
      decreases |rest|
    {
      MinIntExists(rest);
      var m :| m in rest && forall x :: x in rest ==> m <= x;
      SortedIntsHead(rest, m);
      ScanMaxStep(counts, m, SortedInts(rest - {m}), bestLabel, maxCount);
      if counts[m] > maxCount {
        maxCount := counts[m];
        bestLabel := m;
      }
      rest := rest - {m};
    }
  }

  // ---------------------------------------------------------------------------
  // The flat targets of the IModel entry point
  // ---------------------------------------------------------------------------

  /** The position of the first largest entry (`maxVal` from -infinity,
      replaced only on a strictly larger value). */
  function ArgMax(row: seq<real>): (k: nat)
    requires |row| > 0
    ensures k < |row|
    ensures forall j :: 0 <= j < |row| ==> row[j] <= row[k]
    ensures forall j :: 0 <= j < k ==> row[j] < row[k]
    decreases |row|
  {
    if |row| == 1 then 0
    else
      var k := ArgMax(row[..|row| - 1]);
      if row[|row| - 1] > row[k] then |row| - 1 else k
  }

  /** The decoded targets of the flat entry point for nRows rows: one per
      row as given, or a clean multiple of width > 1 read as one-hot rows
      and collapsed to the arg-max column. */
  ghost function FlatTargets(y: seq<real>, nRows: nat): (r: Result<seq<real>>)
    requires nRows > 0
    ensures r.Ok? ==> |r.value| == nRows
  {
    if |y| > nRows then
      if |y| % nRows == 0 && |y| / nRows > 1 then
        var oneHot := Reshape(y, |y| / nRows);
        Ok(seq(nRows, i requires 0 <= i < nRows => if i < |oneHot| then ArgMax(oneHot[i]) as real else 0.0))
      else Err(InvalidArgument(OneHotMsg))
    else if |y| == nRows then Ok(y)
    else Err(InvalidArgument(FewTargetsMsg))
  }

  /** The one-hot encoding of labels in [0, k): row i is 1 at its label and
      0 elsewhere, laid flat. */
  function OneHot(labels: seq<int>, k: nat): seq<real>
  {
    Flatten(OneHotRows(labels, k))
  }

  function OneHotRows(labels: seq<int>, k: nat): (r: seq<seq<real>>)
    ensures |r| == |labels| && Rect(r, k)
    ensures forall i, j :: 0 <= i < |labels| && 0 <= j < k ==> r[i][j] == if j == labels[i] then 1.0 else 0.0
  {
    seq(|labels|, i requires 0 <= i < |labels| => seq(k, j => if j == labels[i] then 1.0 else 0.0))
  }

  lemma ArgMaxOneHot(row: seq<real>, l: int)
    requires 0 <= l < |row|
    requires forall j :: 0 <= j < |row| ==> row[j] == if j == l then 1.0 else 0.0
    ensures ArgMax(row) == l
  {
    var k := ArgMax(row);
    assert row[l] == 1.0 && row[l] <= row[k];
  }

  /** The flat one-hot vector holds a clean multiple k > 1 of the row
      count, and reshapes back into the one-hot rows. */
  lemma OneHotShape(labels: seq<int>, k: nat)
    requires |labels| > 0 && k > 1
    ensures |OneHot(labels, k)| > |labels| && |OneHot(labels, k)| % |labels| == 0
    ensures |OneHot(labels, k)| / |labels| == k
    ensures Reshape(OneHot(labels, k), k) == OneHotRows(labels, k)
  {
    var rows := OneHotRows(labels, k);
    var n := |labels|;
    var y := OneHot(labels, k);
    FlattenLength(rows, k);
    assert |y| == n * k;
    DivUnique(|y|, n, k, 0);
    assert |y| % n == 0 by {
      assert |y| == k * n;
    }
    assert n * k > n * 1;
    ReshapeFlatten(rows, k);
  }

  /** Decoding one-hot targets gives back the labels. */
  lemma OneHotDecodes(labels: seq<int>, k: nat)
    requires |labels| > 0 && k > 1
    requires forall i :: 0 <= i < |labels| ==> 0 <= labels[i] < k
    ensures FlatTargets(OneHot(labels, k), |labels|) ==
      Ok(seq(|labels|, i requires 0 <= i < |labels| => labels[i] as real))
  {
    var rows := OneHotRows(labels, k);
    var n := |labels|;
    OneHotShape(labels, k);
    var dec := seq(n, i requires 0 <= i < n => if i < |rows| then ArgMax(rows[i]) as real else 0.0);
    assert FlatTargets(OneHot(labels, k), n) == Ok(dec);
    var want := seq(n, i requires 0 <= i < n => labels[i] as real);
    forall i | 0 <= i < n ensures dec[i] == want[i] {
      ArgMaxOneHot(rows[i], labels[i]);
    }
    assert dec == want;
  }

  /** The arg-max scan over the w entries of y from `off`: `maxVal` starts
      at -infinity (None) and moves only on a strictly larger value. */
  method RowArgMax(y: seq<real>, off: nat, w: nat) returns (maxIdx: nat)
    requires w > 0 && off + w <= |y|
    ensures maxIdx == ArgMax(y[off..off + w])
  {
    ghost var row := y[off..off + w];
    var maxVal: Option<real> := None;
    maxIdx := 0;
    for k := 0 to w
      invariant k == 0 ==> maxVal.None?
      invariant k > 0 ==> maxVal.Some? && maxIdx == ArgMax(row[..k]) && maxVal.value == row[maxIdx]
    {
      var val := y[off + k];
      assert val == row[k];
      assert row[..k + 1][..k] == row[..k];
      if maxVal.None? || val > maxVal.value {
        maxVal := Some(val);
        maxIdx := k;
      }
    }
    assert row[..w] == row;
  }

  /** The one-hot branch of the decode: row i of the w-wide target table
      becomes its arg-max column. */
  method CollapseOneHot(y: seq<real>, nRows: nat, w: nat) returns (targets: seq<real>)
    requires w > 0 && |y| == nRows * w
    ensures |targets| == nRows && |Reshape(y, w)| == nRows
    ensures forall i :: 0 <= i < nRows ==> targets[i] == ArgMax(Reshape(y, w)[i]) as real
  {
    ReshapeLength(y, w);
    DivUnique(|y|, w, nRows, 0);
    targets := [];
    for i := 0 to nRows
      invariant |targets| == i
      invariant forall m :: 0 <= m < i ==> targets[m] == ArgMax(Reshape(y, w)[m]) as real
    {
      ReshapeRow(y, w, i);
      var maxIdx := RowArgMax(y, i * w, w);
      targets := targets + [maxIdx as real];
    }
  }

  /** The decode of the flat fit's targets for nRows >= 1 rows. */
  method DecodeTargets(y: seq<real>, nRows: nat) returns (r: Result<seq<real>>)
    requires nRows > 0
    ensures r == FlatTargets(y, nRows)
  {
    if |y| > nRows {
      var nTargetCols := |y| / nRows;
      if |y| % nRows == 0 && nTargetCols > 1 {
        assert |y| == nRows * nTargetCols;
        var targets := CollapseOneHot(y, nRows, nTargetCols);
        ghost var oneHot := Reshape(y, nTargetCols);
        ghost var want := seq(nRows, i requires 0 <= i < nRows =>
          if i < |oneHot| then ArgMax(oneHot[i]) as real else 0.0);
        assert forall i :: 0 <= i < nRows ==> targets[i] == want[i];
        assert targets == want;
        return Ok(targets);
      } else {
        return Err(InvalidArgument(OneHotMsg));
      }
    } else if |y| == nRows {
      var targets: seq<real> := [];
      for i := 0 to |y|
        invariant targets == y[..i]
      {
        targets := targets + [y[i]];
      }
      assert y[..|y|] == y;
      return Ok(targets);
    } else {
      return Err(InvalidArgument(FewTargetsMsg));
    }
  }

  // ---------------------------------------------------------------------------
  // The forest object
  // ---------------------------------------------------------------------------

  class RandomForest {
    const nEstimators: int
    const maxDepth: int
    const minSamplesSplit: int
    const bootstrap: bool
    const randomState: int
    const isClassification: bool
    var maxFeatures: int
    var isFitted: bool
    var nFeatures: int
    var trees: seq<DecisionTree>
    /** The trees' grown models, and the width they were fitted on. */
    ghost var models: seq<Tree>
    ghost var width: int

    /** Tree t of the forest is a fitted tree of the forest's settings. */
    ghost predicate TreeOk(t: DecisionTree, w: int)
      reads t
    {
      t.Valid() && t.isFitted && t.nFeatures == w &&
      t.maxDepth == maxDepth && t.minSampleSplit == minSamplesSplit &&
      t.isClassification == isClassification
    }

    ghost predicate Valid()
      reads this, trees
    {
      nEstimators > 0 && minSamplesSplit >= 2 &&
      |models| == |trees| &&
      (isFitted ==> |trees| == nEstimators && width > 0) &&
      forall i :: 0 <= i < |trees| ==> TreeOk(trees[i], width) && trees[i].model == models[i]
    }

    /** The constructor once its two checks have passed. */
    constructor(nEstimators: int, maxDepth: int, minSamplesSplit: int, maxFeatures: int,
                bootstrap: bool, randomState: int, isClassification: bool)
      requires nEstimators > 0 && minSamplesSplit >= 2
      ensures Valid() && !isFitted && nFeatures == 0 && trees == []
      ensures this.nEstimators == nEstimators && this.maxDepth == maxDepth &&
        this.minSamplesSplit == minSamplesSplit && this.maxFeatures == maxFeatures &&
        this.bootstrap == bootstrap && this.randomState == randomState &&
        this.isClassification == isClassification
    {
      this.nEstimators := nEstimators;
      this.maxDepth := maxDepth;
      this.minSamplesSplit := minSamplesSplit;
      this.maxFeatures := maxFeatures;
      this.bootstrap := bootstrap;
      this.randomState := randomState;
      this.isClassification := isClassification;
      isFitted := false;
      nFeatures := 0;
      trees := [];
      models := [];
      width := 0;
    }

    /** RandomForest::buildTree: materialise the sample of tree t and fit a
        fresh tree of the forest's settings on it; Xs and Ys are the sample. */
    method BuildTree(X: seq<seq<real>>, Y: seq<real>, p: int, draw: seq<int>, ghost rows: seq<int>)
      returns (tree: DecisionTree)
      requires |X| > 0 && |X| == |Y| && p > 0 && Rect(X, p)
      requires bootstrap ==> |draw| == |X| && ValidIdx(draw, |X|)
      requires rows == SampleRows(bootstrap, draw, |X|)
      ensures fresh(tree) && tree.Valid() && tree.isFitted && tree.nFeatures == p
      ensures tree.maxDepth == maxDepth && tree.minSampleSplit == minSamplesSplit
      ensures tree.isClassification == isClassification
      ensures ValidIdx(rows, |X|)
      ensures tree.model == TreeModel(isClassification, maxDepth, minSamplesSplit, X, Y, p, rows)
    {
      var n := |X|;
      var indices: seq<int>;
      if bootstrap {
        indices := SampleBootstrap(n, draw);
      } else {
        indices := Iota(n);
      }
      assert indices == SampleRows(bootstrap, draw, n);
      var Xb, Yb := Materialize(X, Y, indices);
      tree := new DecisionTree(maxDepth, minSamplesSplit, isClassification);
      assert Xb[0] == X[indices[0]];
      var _ := tree.Fit(Xb, Yb);
    }

    /** The tree loop of fit: nEstimators fresh trees, tree t fitted on the
        sample of draw t; `want[t]` names the tree that sample grows. */
    method GrowTrees(X: seq<seq<real>>, Y: seq<real>, p: int, draws: seq<seq<int>>, ghost want: seq<Tree>)
      returns (ts: seq<DecisionTree>, ghost ms: seq<Tree>)
      requires |X| > 0 && |X| == |Y| && p > 0 && Rect(X, p)
      requires DrawsOk(bootstrap, nEstimators, draws, |X|) && nEstimators >= 0
      requires |want| == nEstimators && forall i :: 0 <= i < nEstimators ==>
        want[i] == TreeModel(isClassification, maxDepth, minSamplesSplit, X, Y, p, DrawRows(bootstrap, draws, i, |X|))
      ensures |ts| == nEstimators && ms == want
      ensures forall i :: 0 <= i < |ts| ==> TreeOk(ts[i], p) && ts[i].model == ms[i]
    {
      ts, ms := [], [];
      for t := 0 to nEstimators
        invariant |ts| == t && ms == want[..t]
        invariant forall i :: 0 <= i < t ==> TreeOk(ts[i], p) && ts[i].model == ms[i]
      {
        var draw := if bootstrap then draws[t] else [];
        var tree := BuildTree(X, Y, p, draw, DrawRows(bootstrap, draws, t, |X|));
        ts := ts + [tree];
        ms := ms + [tree.model];
      }
      assert want[..nEstimators] == want;
    }

    /** fit(X, Y): the input checks (the feature count is written before the
        width checks run), the resolution of maxFeatures, then nEstimators
        fresh trees replacing the old ones. */
    method Fit(X: seq<seq<real>>, Y: seq<real>, draws: seq<seq<int>>) returns (r: Outcome)
      requires Valid()
      requires DrawsOk(bootstrap, nEstimators, draws, |X|)
      modifies this
      ensures Valid()
      ensures |X| == 0 ==> r == Fail(InvalidArgument(FitEmptyMsg)) && unchanged(this)
      ensures |X| > 0 && |X| != |Y| ==> r == Fail(InvalidArgument(FitSizeMsg)) && unchanged(this)
      ensures |X| > 0 && |X| == |Y| && |X[0]| == 0 ==>
        r == Fail(InvalidArgument(FitNoFeatureMsg)) && nFeatures == 0 &&
        isFitted == old(isFitted) && maxFeatures == old(maxFeatures) && trees == old(trees)
      ensures |X| > 0 && |X| == |Y| && |X[0]| > 0 && !Rect(X, |X[0]|) ==>
        r == Fail(InvalidArgument(FitRaggedMsg)) && nFeatures == |X[0]| &&
        isFitted == old(isFitted) && maxFeatures == old(maxFeatures) && trees == old(trees)
      ensures |X| > 0 && |X| == |Y| && |X[0]| > 0 && Rect(X, |X[0]|) ==>
        r == Pass && isFitted && nFeatures == |X[0]| && width == |X[0]| &&
        maxFeatures == ResolveMaxFeatures(old(maxFeatures), |X[0]|) &&
        |trees| == nEstimators &&
        forall i :: 0 <= i < nEstimators ==>
          models[i] == TreeModel(isClassification, maxDepth, minSamplesSplit, X, Y, |X[0]|,
                                 DrawRows(bootstrap, draws, i, |X|))
    {
      if |X| == 0 {
        return Fail(InvalidArgument(FitEmptyMsg));
      }
      if |X| != |Y| {
        return Fail(InvalidArgument(FitSizeMsg));
      }
      nFeatures := |X[0]|;
      if nFeatures <= 0 {
        return Fail(InvalidArgument(FitNoFeatureMsg));
      }
      for i := 0 to |X|
        invariant forall k :: 0 <= k < i ==> |X[k]| == nFeatures
      {
        if |X[i]| != nFeatures {
          return Fail(InvalidArgument(FitRaggedMsg));
        }
      }
      maxFeatures := ResolveMaxFeatures(maxFeatures, nFeatures);
      ghost var w := nFeatures;
      ghost var want := seq(nEstimators, i requires 0 <= i < nEstimators =>
        TreeModel(isClassification, maxDepth, minSamplesSplit, X, Y, w, DrawRows(bootstrap, draws, i, |X|)));
      trees, models := GrowTrees(X, Y, nFeatures, draws, want);
      width := nFeatures;
      isFitted := true;
      r := Pass;
    }

    /** The trees' outputs on x in tree order, or the first tree's error. */
    method TreeOutputs(x: seq<real>) returns (r: Result<seq<real>>)
      requires Valid() && |trees| > 0
      ensures |x| != width ==> r == Err(InvalidArgument(PredictWidthMsg))
      ensures |x| == width ==> AllBelow(models, |x|) && r == Ok(Outputs(models, x))
    {
      var outs: seq<real> := [];
      for i := 0 to |trees|
        invariant i > 0 ==> |x| == width
        invariant |outs| == i && forall k :: 0 <= k < i ==> FeaturesBelow(models[k], |x|) && outs[k] == Eval(models[k], x)
      {
        var o := trees[i].Predict(x);
        if o.Err? {
          return Err(o.error);
        }
        outs := outs + [o.value];
      }
      OutputsAt(models, x);
      assert outs == Outputs(models, x);
      r := Ok(outs);
    }

    /** predict(x): the fitted and width checks, then the mean of the trees'
        outputs (regression) or the majority vote over their rounded outputs
        (classification). A tree rejects x when its own width differs, which
        happens after a failed refit changed nFeatures. */
    method Predict(x: seq<real>) returns (r: Result<real>)
      requires Valid()
      ensures !isFitted ==> r == Err(LogicError(NotFittedMsg))
      ensures isFitted && |x| != nFeatures ==> r == Err(InvalidArgument(InputWidthMsg))
      ensures isFitted && |x| == nFeatures && |x| != width ==> r == Err(InvalidArgument(PredictWidthMsg))
      ensures isFitted && |x| == nFeatures && |x| == width ==>
        AllBelow(models, |x|) && r == Ok(Aggregate(isClassification, Outputs(models, x)))
    {
      if !isFitted {
        return Err(LogicError(NotFittedMsg));
      }
      if |x| != nFeatures {
        return Err(InvalidArgument(InputWidthMsg));
      }
      var outs := TreeOutputs(x);
      if outs.Err? {
        return Err(outs.error);
      }
      if !isClassification {
        var m := MeanOf(outs.value);
        r := Ok(m.v);
      } else {
        var counts := CountVotes(outs.value);
        var bestLabel := MajorityLabel(counts);
        r := Ok(bestLabel as real);
      }
    }

    /** The flat IModel fit: the emptiness and multiple checks, the decode of
        the targets, the reshape x[i * c + j] into rows, then fit(X, Y). */
    method FitFlat(x: seq<real>, columns: seq<string>, y: seq<real>, draws: seq<seq<int>>) returns (r: Outcome)
      requires Valid()
      requires |columns| > 0 ==> DrawsOk(bootstrap, nEstimators, draws, |x| / |columns|)
      modifies this
      ensures Valid()
      ensures |x| == 0 || |y| == 0 || |columns| == 0 ==> r == Fail(InvalidArgument(FlatEmptyMsg)) && unchanged(this)
      ensures |x| > 0 && |y| > 0 && |columns| > 0 && |x| % |columns| != 0 ==>
        r == Fail(InvalidArgument(FlatMultipleMsg)) && unchanged(this)
      ensures |x| > 0 && |y| > 0 && |columns| > 0 && |x| % |columns| == 0 ==>
        var c := |columns|;
        var n := |x| / c;
        n > 0 &&
        (FlatTargets(y, n).Err? ==> r == Fail(FlatTargets(y, n).error) && unchanged(this)) &&
        (FlatTargets(y, n).Ok? ==>
          var X := Reshape(x, c);
          |X| == n && WellFormed(X, FlatTargets(y, n).value, c) &&
          r == Pass && isFitted && nFeatures == c && width == c &&
          maxFeatures == ResolveMaxFeatures(old(maxFeatures), c) && |trees| == nEstimators &&
          forall i :: 0 <= i < nEstimators ==>
            models[i] == TreeModel(isClassification, maxDepth, minSamplesSplit, X, FlatTargets(y, n).value, c,
                                   DrawRows(bootstrap, draws, i, n)))
    {
      if |x| == 0 || |y| == 0 || |columns| == 0 {
        return Fail(InvalidArgument(FlatEmptyMsg));
      }
      var nCols := |columns|;
      var nRows := |x| / nCols;
      if |x| % nCols != 0 {
        return Fail(InvalidArgument(FlatMultipleMsg));
      }
      var targets := DecodeTargets(y, nRows);
      if targets.Err? {
        return Fail(targets.error);
      }
      var X := ReshapeRows(x, nCols);
      ReshapeLength(x, nCols);
      r := Fit(X, targets.value, draws);
    }

    /** The flat IModel predict: nothing for an empty input (fitted or not),
        then the fitted and multiple checks, then predict on every row in
        row order. */
    method PredictFlat(x: seq<real>, columns: seq<string>) returns (r: Result<seq<real>>)
      requires Valid()
      ensures |x| == 0 || |columns| == 0 ==> r == Ok([])
      ensures |x| > 0 && |columns| > 0 && !isFitted ==> r == Err(LogicError(NotFittedMsg))
      ensures |x| > 0 && |columns| > 0 && isFitted && |x| % |columns| != 0 ==>
        r == Err(InvalidArgument(FlatMultipleMsg))
      ensures |x| > 0 && |columns| > 0 && isFitted && |x| % |columns| == 0 && |columns| != nFeatures ==>
        r == Err(InvalidArgument(InputWidthMsg))
      ensures |x| > 0 && |columns| > 0 && isFitted && |x| % |columns| == 0 && |columns| == nFeatures != width ==>
        r == Err(InvalidArgument(PredictWidthMsg))
      ensures |x| > 0 && |columns| > 0 && isFitted && |x| % |columns| == 0 && |columns| == nFeatures == width ==>
        var X := Reshape(x, |columns|);
        AllBelow(models, |columns|) && r.Ok? && |r.value| == |X| == |x| / |columns| &&
        forall i :: 0 <= i < |X| ==> r.value[i] == Aggregate(isClassification, Outputs(models, X[i]))
    {
      if |x| == 0 || |columns| == 0 {
        return Ok([]);
      }
      if !isFitted {
        return Err(LogicError(NotFittedMsg));
      }
      var nCols := |columns|;
      if |x| % nCols != 0 {
        return Err(InvalidArgument(FlatMultipleMsg));
      }
      r := PredictRows(x, nCols);
    }

    /** The row loop of the flat predict: each row's width check against
        nFeatures, then predict on it, in row order. */
    method PredictRows(x: seq<real>, nCols: nat) returns (r: Result<seq<real>>)
      requires Valid() && isFitted && nCols > 0 && |x| > 0 && |x| % nCols == 0
      ensures nCols != nFeatures ==> r == Err(InvalidArgument(InputWidthMsg))
      ensures nCols == nFeatures != width ==> r == Err(InvalidArgument(PredictWidthMsg))
      ensures nCols == nFeatures == width ==>
        var X := Reshape(x, nCols);
        AllBelow(models, nCols) && r.Ok? && |r.value| == |X| == |x| / nCols &&
        forall i :: 0 <= i < |X| ==> r.value[i] == Aggregate(isClassification, Outputs(models, X[i]))
    {
      var nRows := |x| / nCols;
      WholeRowsPositive(|x|, nCols);
      ReshapeLength(x, nCols);
      ghost var X := Reshape(x, nCols);
      var all: seq<real> := [];
      for i := 0 to nRows
        invariant i > 0 ==> nCols == nFeatures == width && AllBelow(models, nCols)
        invariant |all| == i
        invariant forall k :: 0 <= k < i ==> all[k] == Aggregate(isClassification, Outputs(models, X[k]))
      {
        var p := PredictAt(x, nCols, i);
        if p.Err? {
          return Err(p.error);
        }
        all := all + [p.value];
      }
      r := Ok(all);
    }

    /** One pass of the row loop of the flat predict: row i copied out, its
        width checked against nFeatures, then predict on it. */
    method PredictAt(x: seq<real>, nCols: nat, i: nat) returns (r: Result<real>)
      requires Valid() && isFitted && nCols > 0 && i < |x| / nCols
      ensures nCols != nFeatures ==> r == Err(InvalidArgument(InputWidthMsg))
      ensures nCols == nFeatures != width ==> r == Err(InvalidArgument(PredictWidthMsg))
      ensures nCols == nFeatures == width ==>
        |Reshape(x, nCols)| == |x| / nCols && AllBelow(models, nCols) &&
        r == Ok(Aggregate(isClassification, Outputs(models, Reshape(x, nCols)[i])))
    {
      var row := RowOf(x, nCols, i);
      if |row| != nFeatures {
        return Err(InvalidArgument(InputWidthMsg));
      }
      r := Predict(row);
    }
  }

  /** The constructor: nEstimators > 0 and minSamplesSplit >= 2, checked in
      that order; an unfitted forest with the given settings otherwise. */
  method NewForest(nEstimators: int, maxDepth: int, minSamplesSplit: int, maxFeatures: int,
                   bootstrap: bool, randomState: int, isClassification: bool) returns (r: Result<RandomForest>)
    ensures nEstimators <= 0 ==> r == Err(InvalidArgument(CtorEstimatorsMsg))
    ensures nEstimators > 0 && minSamplesSplit < 2 ==> r == Err(InvalidArgument(CtorMinSplitMsg))
    ensures nEstimators > 0 && minSamplesSplit >= 2 ==>
      r.Ok? && fresh(r.value) && r.value.Valid() && !r.value.isFitted && r.value.nFeatures == 0 &&
      r.value.trees == [] && r.value.nEstimators == nEstimators && r.value.maxDepth == maxDepth &&
      r.value.minSamplesSplit == minSamplesSplit && r.value.maxFeatures == maxFeatures &&
      r.value.bootstrap == bootstrap && r.value.randomState == randomState &&
      r.value.isClassification == isClassification
  {
    if nEstimators <= 0 {
      return Err(InvalidArgument(CtorEstimatorsMsg));
    }
    if minSamplesSplit < 2 {
      return Err(InvalidArgument(CtorMinSplitMsg));
    }
    var f := new RandomForest(nEstimators, maxDepth, minSamplesSplit, maxFeatures, bootstrap, randomState,
                              isClassification);
    r := Ok(f);
  }
}
