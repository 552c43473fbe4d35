/** The tree that DecisionTree::buildTree grows, as a value: a leaf holds a
    prediction, an internal node a feature, a threshold and two subtrees.
    Grow is the recursive specification of buildTree; the DecisionTree class
    stores the same tree in its six parallel arrays. */
module TreeGrowth {
  import opened Numeric
  import opened Variance
  import opened Impurity
  import opened SplitSearch

  datatype Tree = Leaf(value: real) | Node(feat: int, thr: real, left: Tree, right: Tree)

  /** Every internal node tests a feature in [0, p). */
  predicate FeaturesBelow(t: Tree, p: int)
  {
    match t
    case Leaf(_) => true
    case Node(f, _, l, r) => 0 <= f < p && FeaturesBelow(l, p) && FeaturesBelow(r, p)
  }

  /** The prediction of `t` for the row `x`: go left when x[f] <= thr. */
  function Eval(t: Tree, x: seq<real>): real
    requires FeaturesBelow(t, |x|)
  {
    match t
    case Leaf(v) => v
    case Node(f, thr, l, r) => if x[f] <= thr then Eval(l, x) else Eval(r, x)
  }

  /** Number of edges on the longest root-to-leaf path. */
  function Height(t: Tree): nat
  {
    match t
    case Leaf(_) => 0
    case Node(_, _, l, r) => 1 + (if Height(l) >= Height(r) then Height(l) else Height(r))
  }

  /** Number of nodes: the arena length of a tree built into fresh slots. */
  function Size(t: Tree): nat
  {
    match t
    case Leaf(_) => 1
    case Node(_, _, l, r) => 1 + Size(l) + Size(r)
  }

  /** buildTree at depth `depth` on the rows `idx`: a leaf when the depth
      limit is reached or the node is smaller than minSampleSplit, else the
      split step GrowSplit. */
  ghost function Grow(isClassification: bool, maxDepth: int, minSampleSplit: int,
                      X: seq<seq<real>>, Y: seq<real>, p: int, idx: seq<int>, depth: int): Tree
    requires WellFormed(X, Y, p) && ValidIdx(idx, |X|)
    decreases |idx|, 1
  {
    if depth >= maxDepth || |idx| < minSampleSplit then Leaf(LeafValue(isClassification, Targets(Y, idx)))
    else GrowSplit(isClassification, maxDepth, minSampleSplit, X, Y, p, idx, depth)
  }

  /** The split step of buildTree: a leaf again when bestSplit finds no
      split (or a gain <= 0), otherwise a node whose subtrees are grown one
      level deeper on the split's two sides. */
  ghost function GrowSplit(isClassification: bool, maxDepth: int, minSampleSplit: int,
                           X: seq<seq<real>>, Y: seq<real>, p: int, idx: seq<int>, depth: int): Tree
    requires WellFormed(X, Y, p) && ValidIdx(idx, |X|)
    decreases |idx|, 0
  {
    var sp := BestSplitSpec(isClassification, minSampleSplit, X, Y, p, idx);
    if sp.feat == -1 || sp.gain <= 0.0 then Leaf(LeafValue(isClassification, Targets(Y, idx)))
    else
      BestSplitSound(isClassification, minSampleSplit, X, Y, p, idx);
      SplitShrinks(X, p, idx, sp);
      Node(sp.feat, sp.thr,
           Grow(isClassification, maxDepth, minSampleSplit, X, Y, p, sp.left, depth + 1),
           Grow(isClassification, maxDepth, minSampleSplit, X, Y, p, sp.right, depth + 1))
  }

  /** Past the stopping rules Grow is its split step. */
  lemma GrowUnfold(isClassification: bool, maxDepth: int, minSampleSplit: int,
                   X: seq<seq<real>>, Y: seq<real>, p: int, idx: seq<int>, depth: int)
    requires WellFormed(X, Y, p) && ValidIdx(idx, |X|)
    requires !(depth >= maxDepth || |idx| < minSampleSplit)
    ensures Grow(isClassification, maxDepth, minSampleSplit, X, Y, p, idx, depth) ==
            GrowSplit(isClassification, maxDepth, minSampleSplit, X, Y, p, idx, depth)
  {
  }

  // ---------------------------------------------------------------------------
  // Shape of the grown tree
  // ---------------------------------------------------------------------------

  /** Every feature a node splits on is one of the p features the tree was fitted on,
      so predict never reads past a row of the fitted width. */
  lemma {:induction false} GrowFeaturesBelow(isClassification: bool, maxDepth: int, minSampleSplit: int,
                                             X: seq<seq<real>>, Y: seq<real>, p: int, idx: seq<int>, depth: int)
    requires WellFormed(X, Y, p) && ValidIdx(idx, |X|)
    ensures FeaturesBelow(Grow(isClassification, maxDepth, minSampleSplit, X, Y, p, idx, depth), p)
    decreases |idx|
  {
    if !(depth >= maxDepth || |idx| < minSampleSplit) {
      GrowUnfold(isClassification, maxDepth, minSampleSplit, X, Y, p, idx, depth);
      var sp := BestSplitSpec(isClassification, minSampleSplit, X, Y, p, idx);
      if !(sp.feat == -1 || sp.gain <= 0.0) {
        BestSplitSound(isClassification, minSampleSplit, X, Y, p, idx);
        SplitShrinks(X, p, idx, sp);
        GrowFeaturesBelow(isClassification, maxDepth, minSampleSplit, X, Y, p, sp.left, depth + 1);
        GrowFeaturesBelow(isClassification, maxDepth, minSampleSplit, X, Y, p, sp.right, depth + 1);
      }
    }
  }

  /** When buildTree splits, the grown tree is the node of bestSplit's
      feature and threshold over the subtrees grown on the two sides. */
  lemma GrowSplits(isClassification: bool, maxDepth: int, minSampleSplit: int,
                   X: seq<seq<real>>, Y: seq<real>, p: int, idx: seq<int>, depth: int)
    requires WellFormed(X, Y, p) && ValidIdx(idx, |X|)
    requires depth < maxDepth && |idx| >= minSampleSplit
    requires var sp := BestSplitSpec(isClassification, minSampleSplit, X, Y, p, idx);
      sp.feat != -1 && sp.gain > 0.0
    ensures var sp := BestSplitSpec(isClassification, minSampleSplit, X, Y, p, idx);
      SplitOk(X, p, idx, sp) && |sp.left| < |idx| && |sp.right| < |idx| &&
      Grow(isClassification, maxDepth, minSampleSplit, X, Y, p, idx, depth) ==
      Node(sp.feat, sp.thr,
           Grow(isClassification, maxDepth, minSampleSplit, X, Y, p, sp.left, depth + 1),
           Grow(isClassification, maxDepth, minSampleSplit, X, Y, p, sp.right, depth + 1))
  {
    GrowUnfold(isClassification, maxDepth, minSampleSplit, X, Y, p, idx, depth);
    var sp := BestSplitSpec(isClassification, minSampleSplit, X, Y, p, idx);
    BestSplitSound(isClassification, minSampleSplit, X, Y, p, idx);
    SplitShrinks(X, p, idx, sp);
  }

  /** The split case of Grow, stated for a split found by bestSplit. */
  lemma GrowNode(isClassification: bool, maxDepth: int, minSampleSplit: int,
                 X: seq<seq<real>>, Y: seq<real>, p: int, idx: seq<int>, depth: int,
                 f: int, thr: real, gain: real, L: seq<int>, R: seq<int>)
    requires WellFormed(X, Y, p) && ValidIdx(idx, |X|)
    requires depth < maxDepth && |idx| >= minSampleSplit
    requires Split(f, thr, gain, L, R) == BestSplitSpec(isClassification, minSampleSplit, X, Y, p, idx)
    requires f != -1 && gain > 0.0
    ensures ValidIdx(L, |X|) && ValidIdx(R, |X|) && |L| < |idx| && |R| < |idx|
    ensures Grow(isClassification, maxDepth, minSampleSplit, X, Y, p, idx, depth) ==
      Node(f, thr,
           Grow(isClassification, maxDepth, minSampleSplit, X, Y, p, L, depth + 1),
           Grow(isClassification, maxDepth, minSampleSplit, X, Y, p, R, depth + 1))
  {
    GrowSplits(isClassification, maxDepth, minSampleSplit, X, Y, p, idx, depth);
  }

  /** buildTree's first stopping rule. */
  lemma GrowStops(isClassification: bool, maxDepth: int, minSampleSplit: int,
                  X: seq<seq<real>>, Y: seq<real>, p: int, idx: seq<int>, depth: int)
    requires WellFormed(X, Y, p) && ValidIdx(idx, |X|)
    requires depth >= maxDepth || |idx| < minSampleSplit
    ensures Grow(isClassification, maxDepth, minSampleSplit, X, Y, p, idx, depth)
      == Leaf(LeafValue(isClassification, Targets(Y, idx)))
  {
  }

  /** buildTree's second stopping rule: bestSplit finds no positive gain. */
  lemma GrowNoSplit(isClassification: bool, maxDepth: int, minSampleSplit: int,
                    X: seq<seq<real>>, Y: seq<real>, p: int, idx: seq<int>, depth: int)
    requires WellFormed(X, Y, p) && ValidIdx(idx, |X|)
    requires !(depth >= maxDepth || |idx| < minSampleSplit)
    requires var sp := BestSplitSpec(isClassification, minSampleSplit, X, Y, p, idx);
      sp.feat == -1 || sp.gain <= 0.0
    ensures Grow(isClassification, maxDepth, minSampleSplit, X, Y, p, idx, depth)
      == Leaf(LeafValue(isClassification, Targets(Y, idx)))
  {
    GrowUnfold(isClassification, maxDepth, minSampleSplit, X, Y, p, idx, depth);
  }

  lemma HeightStep(f: int, thr: real, l: Tree, r: Tree, b: int)
    requires Height(l) < b && Height(r) < b
    ensures Height(Node(f, thr, l, r)) <= b
  {
  }

  /** No internal node sits at depth >= maxDepth: the tree grown from depth
      `depth` is at most maxDepth - depth high. */
  lemma {:induction false} GrowHeight(isClassification: bool, maxDepth: int, minSampleSplit: int,
                                      X: seq<seq<real>>, Y: seq<real>, p: int, idx: seq<int>, depth: int)
    requires WellFormed(X, Y, p) && ValidIdx(idx, |X|)
    ensures Height(Grow(isClassification, maxDepth, minSampleSplit, X, Y, p, idx, depth))
      <= if maxDepth - depth > 0 then maxDepth - depth else 0
    decreases |idx|
  {
    if !(depth >= maxDepth || |idx| < minSampleSplit) {
      var sp := BestSplitSpec(isClassification, minSampleSplit, X, Y, p, idx);
      if !(sp.feat == -1 || sp.gain <= 0.0) {
        GrowSplits(isClassification, maxDepth, minSampleSplit, X, Y, p, idx, depth);
        GrowHeight(isClassification, maxDepth, minSampleSplit, X, Y, p, sp.left, depth + 1);
        GrowHeight(isClassification, maxDepth, minSampleSplit, X, Y, p, sp.right, depth + 1);
        HeightStep(sp.feat, sp.thr,
                   Grow(isClassification, maxDepth, minSampleSplit, X, Y, p, sp.left, depth + 1),
                   Grow(isClassification, maxDepth, minSampleSplit, X, Y, p, sp.right, depth + 1),
                   maxDepth - depth);
      }
    }
  }

  /** A tree grown from a depth at or past maxDepth is a single leaf holding
      the node's leaf value; with maxDepth <= 0 that is the root itself. */
  lemma GrowAtDepthLimit(isClassification: bool, maxDepth: int, minSampleSplit: int,
                         X: seq<seq<real>>, Y: seq<real>, p: int, idx: seq<int>, depth: int)
    requires WellFormed(X, Y, p) && ValidIdx(idx, |X|)
    requires depth >= maxDepth
    ensures Grow(isClassification, maxDepth, minSampleSplit, X, Y, p, idx, depth)
      == Leaf(LeafValue(isClassification, Targets(Y, idx)))
  {
  }

  /** buildTree makes a leaf exactly when the depth limit is reached, the
      node has fewer than minSampleSplit rows (or none), or no split point of
      any feature has a positive impurity decrease. */
  lemma GrowLeafIff(isClassification: bool, maxDepth: int, minSampleSplit: int,
                    X: seq<seq<real>>, Y: seq<real>, p: int, idx: seq<int>, depth: int)
    requires WellFormed(X, Y, p) && ValidIdx(idx, |X|)
    ensures Grow(isClassification, maxDepth, minSampleSplit, X, Y, p, idx, depth).Leaf? <==>
      (depth >= maxDepth || |idx| < minSampleSplit || |idx| == 0 ||
       forall g, t :: FeatureCandidate(X, p, idx, g, t) ==> FeatureGain(isClassification, X, Y, p, idx, g, t) <= 0.0)
  {
    if !(depth >= maxDepth || |idx| < minSampleSplit || |idx| == 0) {
      GrowUnfold(isClassification, maxDepth, minSampleSplit, X, Y, p, idx, depth);
      var sp := BestSplitSpec(isClassification, minSampleSplit, X, Y, p, idx);
      BestSplitNoneIff(isClassification, minSampleSplit, X, Y, p, idx);
      BestSplitSound(isClassification, minSampleSplit, X, Y, p, idx);
    }
  }

  // ---------------------------------------------------------------------------
  // Pure nodes
  // ---------------------------------------------------------------------------

  /** The rows of a reordering of a pure node are pure too. */
  lemma PureRows(Y: seq<real>, idx: seq<int>, rows: seq<int>, c: real)
    requires ValidIdx(idx, |Y|) && multiset(rows) == multiset(idx)
    requires forall k :: 0 <= k < |idx| ==> Y[idx[k]] == c
    ensures forall k :: 0 <= k < |rows| ==> 0 <= rows[k] < |Y| && Y[rows[k]] == c
  {
    forall k | 0 <= k < |rows| ensures 0 <= rows[k] < |Y| && Y[rows[k]] == c {
      assert rows[k] in multiset(idx);
      var j :| 0 <= j < |idx| && idx[j] == rows[k];
    }
  }

  /** A weighted decrease with a zero parent impurity and non-negative child
      impurities is never positive. */
  lemma WeightedNonpos(gP: real, nL: real, gL: real, nR: real, gR: real, nP: real)
    requires gP == 0.0 && gL >= 0.0 && gR >= 0.0 && nL >= 0.0 && nR >= 0.0 && nP > 0.0
    ensures Weighted(gP, nL, gL, nR, gR, nP) <= 0.0
  {
    assert nL * gL >= 0.0 && nR * gR >= 0.0;
  }

  /** The right sums of a candidate are the sums of the right side's targets. */
  lemma RightSums(Y: seq<real>, idx: seq<int>, rows: seq<int>, s: int)
    requires ValidIdx(idx, |Y|) && ValidIdx(rows, |Y|) && multiset(rows) == multiset(idx)
    requires 0 <= s < |rows|
    ensures Sum(Targets(Y, idx)) - Sum(Targets(Y, rows[..s + 1])) == Sum(Targets(Y, rows[s + 1..]))
    ensures SumSq(Targets(Y, idx)) - SumSq(Targets(Y, rows[..s + 1])) == SumSq(Targets(Y, rows[s + 1..]))
  {
    var A, B := rows[..s + 1], rows[s + 1..];
    assert rows == A + B;
    TargetsAppend(Y, A, B);
    SumAppend(Targets(Y, A), Targets(Y, B));
    SumSqAppend(Targets(Y, A), Targets(Y, B));
    TargetsPermutation(Y, rows, idx);
    SumPermutation(Targets(Y, rows), Targets(Y, idx));
    SumSqPermutation(Targets(Y, rows), Targets(Y, idx));
  }

  /** Gini decrease of a split of a node whose labels all equal c is never
      positive. */
  lemma PureGiniGain(vP: seq<real>, vL: seq<real>, vR: seq<real>, c: real)
    requires |vP| > 0 && |vL| > 0 && |vR| > 0 && |vL| + |vR| == |vP|
    requires forall k :: 0 <= k < |vP| ==> vP[k] == c
    ensures SplitGain(true, vP, vL, vR) <= 0.0
  {
    GiniOfPure(vP, c);
    GiniBounds(vL);
    GiniBounds(vR);
    WeightedNonpos(Gini(vP), |vL| as real, Gini(vL), (|vP| - |vL|) as real, Gini(vR), |vP| as real);
  }

  /** Variance decrease of a split of a node whose targets all equal c is
      never positive. */
  lemma PureMseGain(vP: seq<real>, vL: seq<real>, vR: seq<real>, c: real)
    requires |vP| > 0 && |vL| > 0 && |vR| > 0 && |vL| + |vR| == |vP|
    requires forall k :: 0 <= k < |vP| ==> vP[k] == c
    requires forall k :: 0 <= k < |vL| ==> vL[k] == c
    requires forall k :: 0 <= k < |vR| ==> vR[k] == c
    requires Sum(vP) - Sum(vL) == Sum(vR) && SumSq(vP) - SumSq(vL) == SumSq(vR)
    ensures SplitGain(false, vP, vL, vR) <= 0.0
  {
    var sumP, sumP2 := ParentSum(false, vP), ParentSumSq(false, vP);
    var sumL, sumL2 := Sum(vL), SumSq(vL);
    MseOfConstant(vP, c, |vP|, sumP, sumP2);
    MseOfConstant(vL, c, |vL|, sumL, sumL2);
    MseOfConstant(vR, c, |vP| - |vL|, sumP - sumL, sumP2 - sumL2);
    WeightedNonpos(ComputeMse(|vP|, sumP, sumP2), |vL| as real, ComputeMse(|vL|, sumL, sumL2),
                   (|vP| - |vL|) as real, ComputeMse(|vP| - |vL|, sumP - sumL, sumP2 - sumL2), |vP| as real);
  }

  /** impurityDecrease of a split of a node whose targets all equal c is
      never positive. */
  lemma PureDecrease(isClassification: bool, vP: seq<real>, vL: seq<real>, vR: seq<real>, c: real)
    requires |vP| > 0 && |vL| + |vR| == |vP|
    requires forall k :: 0 <= k < |vP| ==> vP[k] == c
    requires forall k :: 0 <= k < |vL| ==> vL[k] == c
    requires forall k :: 0 <= k < |vR| ==> vR[k] == c
    requires Sum(vP) - Sum(vL) == Sum(vR) && SumSq(vP) - SumSq(vL) == SumSq(vR)
    ensures SplitGain(isClassification, vP, vL, vR) <= 0.0
  {
    if |vL| > 0 && |vR| > 0 {
      if isClassification {
        PureGiniGain(vP, vL, vR, c);
      } else {
        PureMseGain(vP, vL, vR, c);
      }
    }
  }

  /** Every candidate split of a node whose targets all equal c has
      impurity decrease <= 0: the parent's impurity is already 0. */
  lemma PureCandidateGain(isClassification: bool, Y: seq<real>, idx: seq<int>, rows: seq<int>, s: int, c: real)
    requires ValidIdx(idx, |Y|) && ValidIdx(rows, |Y|) && |idx| > 0 && multiset(rows) == multiset(idx)
    requires 0 <= s < |rows|
    requires forall k :: 0 <= k < |idx| ==> Y[idx[k]] == c
    ensures CandidateGain(isClassification, Y, idx, rows, s) <= 0.0
  {
    PureRows(Y, idx, rows, c);
    var vP, vL, vR := Targets(Y, idx), Targets(Y, rows[..s + 1]), Targets(Y, rows[s + 1..]);
    assert |rows| == |idx| by {
      assert |multiset(rows)| == |multiset(idx)|;
    }
    assert forall k :: 0 <= k < |vL| ==> vL[k] == c;
    assert forall k :: 0 <= k < |vR| ==> vR[k] == c;
    RightSums(Y, idx, rows, s);
    PureDecrease(isClassification, vP, vL, vR, c);
  }

  /** A node whose targets all equal c becomes the leaf c: no split of it
      has a positive decrease, and its mean and its mode are both c. */
  lemma GrowPure(isClassification: bool, maxDepth: int, minSampleSplit: int,
                 X: seq<seq<real>>, Y: seq<real>, p: int, idx: seq<int>, depth: int, c: real)
    requires WellFormed(X, Y, p) && ValidIdx(idx, |X|) && |idx| > 0
    requires forall k :: 0 <= k < |idx| ==> Y[idx[k]] == c
    ensures Grow(isClassification, maxDepth, minSampleSplit, X, Y, p, idx, depth) == Leaf(c)
  {
    var vals := Targets(Y, idx);
    LeafValueOfPure(isClassification, vals, c);
    if !(depth >= maxDepth || |idx| < minSampleSplit) {
      forall g, t | FeatureCandidate(X, p, idx, g, t)
        ensures FeatureGain(isClassification, X, Y, p, idx, g, t) <= 0.0
      {
        PureCandidateGain(isClassification, Y, idx, SortByFeature(X, g, idx), t, c);
      }
      BestSplitNoneIff(isClassification, minSampleSplit, X, Y, p, idx);
      GrowUnfold(isClassification, maxDepth, minSampleSplit, X, Y, p, idx, depth);
    }
  }

  /** A single training row gives the leaf holding its target. */
  lemma GrowSingle(isClassification: bool, maxDepth: int, minSampleSplit: int,
                   X: seq<seq<real>>, Y: seq<real>, p: int, i: int, depth: int)
    requires WellFormed(X, Y, p) && 0 <= i < |X|
    ensures Grow(isClassification, maxDepth, minSampleSplit, X, Y, p, [i], depth) == Leaf(Y[i])
  {
    GrowPure(isClassification, maxDepth, minSampleSplit, X, Y, p, [i], depth, Y[i]);
  }

  /** A tree has an odd number of nodes: each split adds two. */
  lemma {:induction false} SizeOdd(t: Tree)
    ensures Size(t) % 2 == 1
  {
    match t
    case Leaf(_) =>
    case Node(_, _, l, r) =>
      SizeOdd(l);
      SizeOdd(r);
  }
}
