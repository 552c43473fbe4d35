/** DecisionTree (DecisionTree.h / DecisionTree.cpp): a CART tree stored in
    six index-aligned arrays. Node 0 is the root; an internal node k names
    its children left[k] and right[k], both allocated after k. The class's
    methods are proved against the value-level specification in TreeGrowth:
    after fit, the arrays encode Grow of the training table. */
module DecisionTreeModel {
  import opened Wrappers
  import opened Numeric
  import opened Variance
  import opened Impurity
  import opened SplitSearch
  import opened TreeGrowth

  // ---------------------------------------------------------------------------
  // The node arena
  // ---------------------------------------------------------------------------

  /** The six parallel node arrays. */
  datatype Arena = Arena(feature: seq<int>, threshold: seq<real>, left: seq<int>, right: seq<int>,
                         isLeaf: seq<bool>, value: seq<real>)

  /** The arrays are index-aligned. */
  predicate Aligned(a: Arena)
  {
    |a.threshold| == |a.feature| && |a.left| == |a.feature| && |a.right| == |a.feature| &&
    |a.isLeaf| == |a.feature| && |a.value| == |a.feature|
  }

  /** Node k of the arena stores the tree t: a leaf slot holds its value, an
      internal slot its feature and threshold, and its children are later
      slots that store the subtrees. */
  predicate Enc(a: Arena, k: int, t: Tree)
    requires Aligned(a)
    decreases t
  {
    0 <= k < |a.feature| &&
    match t
    case Leaf(v) => a.isLeaf[k] && a.value[k] == v
    case Node(f, thr, l, r) =>
      !a.isLeaf[k] && a.feature[k] == f && a.threshold[k] == thr &&
      k < a.left[k] < |a.feature| && k < a.right[k] < |a.feature| &&
      Enc(a, a.left[k], l) && Enc(a, a.right[k], r)
  }

  /** The slots the encoding of t at k occupies. */
  function Reach(a: Arena, k: int, t: Tree): set<int>
    requires Aligned(a) && Enc(a, k, t)
    decreases t
  {
    match t
    case Leaf(_) => {k}
    case Node(_, _, l, r) => {k} + Reach(a, a.left[k], l) + Reach(a, a.right[k], r)
  }

  /** Slot j holds the same node in both arenas. */
  predicate SameNode(a: Arena, b: Arena, j: int)
    requires Aligned(a) && Aligned(b)
  {
    0 <= j < |a.feature| && j < |b.feature| &&
    a.feature[j] == b.feature[j] && a.threshold[j] == b.threshold[j] &&
    a.left[j] == b.left[j] && a.right[j] == b.right[j] &&
    a.isLeaf[j] == b.isLeaf[j] && a.value[j] == b.value[j]
  }

  /** `b` is `a` with at most slot k rewritten and slots appended. */
  predicate KeepsExcept(a: Arena, b: Arena, k: int)
    requires Aligned(a) && Aligned(b)
  {
    |a.feature| <= |b.feature| &&
    forall j :: 0 <= j < |a.feature| && j != k ==> SameNode(a, b, j)
  }

  /** Every slot in S is k or lies in [lo, hi). */
  predicate Within(S: set<int>, k: int, lo: int, hi: int)
  {
    forall j :: j in S ==> j == k || lo <= j < hi
  }

  /** `b` is `a` with tree t encoded at slot k, t's other slots appended
      after `a`'s, and every other slot of `a` left as it was. */
  predicate Placed(a: Arena, b: Arena, k: int, t: Tree)
    requires Aligned(a) && Aligned(b)
  {
    Enc(b, k, t) &&
    Within(Reach(b, k, t), k, |a.feature|, |b.feature|) &&
    |b.feature| == |a.feature| + Size(t) - 1 &&
    KeepsExcept(a, b, k)
  }

  /** An encoding only depends on the slots it occupies. */
  lemma {:induction false} EncFrame(a: Arena, b: Arena, k: int, t: Tree)
    requires Aligned(a) && Aligned(b) && Enc(a, k, t)
    requires forall j :: j in Reach(a, k, t) ==> SameNode(a, b, j)
    ensures Enc(b, k, t) && Reach(b, k, t) == Reach(a, k, t)
    decreases t
  {
    assert SameNode(a, b, k);
    match t
    case Leaf(_) =>
    case Node(_, _, l, r) =>
      EncFrame(a, b, a.left[k], l);
      EncFrame(a, b, a.right[k], r);
  }

  /** The slots of an encoding at k are k and later slots. */
  lemma {:induction false} ReachAbove(a: Arena, k: int, t: Tree)
    requires Aligned(a) && Enc(a, k, t)
    ensures forall j :: j in Reach(a, k, t) ==> k <= j < |a.feature|
    decreases t
  {
    match t
    case Leaf(_) =>
    case Node(_, _, l, r) =>
      ReachAbove(a, a.left[k], l);
      ReachAbove(a, a.right[k], r);
  }

  /** The rows 0 .. n-1 in order. */
  function Range(n: nat): (r: seq<int>)
    ensures |r| == n && forall i :: 0 <= i < n ==> r[i] == i
  {
    if n == 0 then [] else Range(n - 1) + [n - 1]
  }

  /** std::iota over n slots: the row numbers 0 .. n-1 in order. */
  method Iota(n: nat) returns (idx: seq<int>)
    ensures idx == Range(n)
  {
    idx := [];
    for i := 0 to n
      invariant idx == Range(i)
    {
      idx := idx + [i];
    }
  }

  /** What predict needs of a fitted model: every feature a node splits on is below the
      stored width, so an input of that width is never read out of range. */
  predicate PredictSafe(isFitted: bool, nFeatures: int, model: Tree)
  {
    isFitted ==> FeaturesBelow(model, nFeatures)
  }

  /** One more target extends the targets of a prefix. */
  lemma TargetsSnoc(Y: seq<real>, idx: seq<int>, i: int)
    requires ValidIdx(idx, |Y|) && 0 <= i < |idx|
    ensures Targets(Y, idx[..i + 1]) == Targets(Y, idx[..i]) + [Y[idx[i]]]
  {
    assert idx[..i + 1][..i] == idx[..i];
  }

  /** One more row extends the partition of a prefix. */
  lemma PartitionSnoc(X: seq<seq<real>>, f: int, thr: real, idx: seq<int>, i: int)
    requires HasCol(X, f) && ValidIdx(idx, |X|) && 0 <= i < |idx|
    ensures var p := Partition(X, f, thr, idx[..i]);
      Partition(X, f, thr, idx[..i + 1]) ==
        if X[idx[i]][f] <= thr then (p.0 + [idx[i]], p.1) else (p.0, p.1 + [idx[i]])
  {
    assert idx[..i + 1][..i] == idx[..i];
  }

  /** Both pieces of a cut of valid rows are valid. */
  lemma SliceValid(rows: seq<int>, n: int, s: int)
    requires ValidIdx(rows, n) && 0 <= s <= |rows|
    ensures ValidIdx(rows[..s], n) && ValidIdx(rows[s..], n)
  {
    assert forall k :: 0 <= k < |rows[s..]| ==> rows[s..][k] == rows[s + k];
  }

  /** The label -> count table of the targets of idx, built one row at a time. */
  method CountTargets(Y: seq<real>, idx: seq<int>) returns (counts: map<real, nat>)
    requires ValidIdx(idx, |Y|)
    ensures counts == CountMap(Targets(Y, idx))
  {
    counts := map[];
    ghost var seen: seq<real> := [];
    var i := 0;
    while i < |idx|
      invariant 0 <= i <= |idx|
      invariant |seen| == i && forall k :: 0 <= k < i ==> seen[k] == Y[idx[k]]
      invariant forall x :: x in counts <==> x in seen
      invariant forall x :: x in counts ==> counts[x] == Count(seen, x)
    {
      var y := Y[idx[i]];
      forall x ensures Count(seen + [y], x) == Count(seen, x) + (if y == x then 1 else 0) {
        CountSnoc(seen, y, x);
      }
      CountBounds(seen, y);
      counts := counts[y := if y in counts then counts[y] + 1 else 1];
      seen := seen + [y];
      i := i + 1;
    }
    assert forall x :: x in counts <==> x in seen;
    assert seen == Targets(Y, idx);
    CountMapExt(seen, counts);
  }

  /** A running sum extended by one more term. */
  lemma SumsStep(v: seq<real>, y: real)
    ensures Sum(v + [y]) == Sum(v) + y && SumSq(v + [y]) == SumSq(v) + y * y
  {
    assert (v + [y])[..|v + [y]| - 1] == v;
  }

  /** The running sums of the targets of a prefix of idx, one row longer. */
  lemma PrefixSumsStep(Y: seq<real>, idx: seq<int>, i: int, y: real)
    requires ValidIdx(idx, |Y|) && 0 <= i < |idx| && y == Y[idx[i]]
    ensures Sum(Targets(Y, idx[..i + 1])) == Sum(Targets(Y, idx[..i])) + y
    ensures SumSq(Targets(Y, idx[..i + 1])) == SumSq(Targets(Y, idx[..i])) + y * y
  {
    TargetsSnoc(Y, idx, i);
    SumsStep(Targets(Y, idx[..i]), y);
  }

  /** The squared shares over [m] + rest: m's share first. */
  lemma SharesStep(counts: map<real, nat>, m: real, rest: seq<real>, n: real, p: real)
    requires n > 0.0 && m in counts && forall j :: 0 <= j < |rest| ==> rest[j] in counts
    requires p == (counts[m] as real) / n
    ensures SquaredShares(counts, [m] + rest, n) == p * p + SquaredShares(counts, rest, n)
  {
    assert ([m] + rest)[1..] == rest;
  }

  /** One step of the "strictly larger count" scan over [m] + rest. */
  lemma ScanMaxStep<T>(counts: map<T, nat>, m: T, rest: seq<T>, best: T, maxCount: int)
    requires m in counts && forall j :: 0 <= j < |rest| ==> rest[j] in counts
    ensures ScanMax(counts, [m] + rest, best, maxCount) ==
      if counts[m] > maxCount then ScanMax(counts, rest, m, counts[m]) else ScanMax(counts, rest, best, maxCount)
  {
    assert ([m] + rest)[1..] == rest;
  }

  /** computeGini: 1 minus the squared label shares, the label -> count table
      visited in ascending key order. */
  method ComputeGini(indices: seq<int>, Y: seq<real>) returns (g: real)
    requires ValidIdx(indices, |Y|)
    ensures g == Gini(Targets(Y, indices))
  {
    if |indices| == 0 {
      return 0.0;
    }
    var counts := CountTargets(Y, indices);
    var sumSq := SumSquaredShares(counts, |indices| as real);
    g := 1.0 - sumSq;
  }

  /** The loop of computeGini: each count's share of n, squared and summed,
      the keys visited in ascending order. */
  method SumSquaredShares(counts: map<real, nat>, n: real) returns (sumSq: real)
    requires n > 0.0
    ensures sumSq == SquaredShares(counts, SortedReals(counts.Keys), n)
  {
    sumSq := 0.0;
    var rest := counts.Keys;
    ghost var total := SquaredShares(counts, SortedReals(counts.Keys), n);
    while rest != {}
      invariant rest <= counts.Keys
      invariant sumSq + SquaredShares(counts, SortedReals(rest), n) == total
      decreases |rest|
    {
      MinRealExists(rest);
      var m :| m in rest && forall x :: x in rest ==> m <= x;
      SortedRealsHead(rest, m);
      var p := (counts[m] as real) / n;
      SharesStep(counts, m, SortedReals(rest - {m}), n, p);
      sumSq := sumSq + p * p;
      rest := rest - {m};
    }
  }

  /** makeLeaf's classification value: the first label in ascending order
      whose count is strictly larger than every earlier one, starting from
      the first row's label and a count of -1. */
  method LeafMode(indices: seq<int>, Y: seq<real>) returns (bestLabel: real)
    requires ValidIdx(indices, |Y|) && |indices| > 0
    ensures bestLabel == Mode(Targets(Y, indices))
  {
    var counts := CountTargets(Y, indices);
    ghost var vals := Targets(Y, indices);
    assert vals[0] == Y[indices[0]];
    bestLabel := ScanCounts(counts, Y[indices[0]]);
  }

  /** The loop of makeLeaf: the keys in ascending order, keeping one only on
      a strictly larger count, from (first, -1). */
  method ScanCounts(counts: map<real, nat>, first: real) returns (bestLabel: real)
    ensures bestLabel == ScanMax(counts, SortedReals(counts.Keys), first, -1)
  {
    bestLabel := first;
    var maxCount: int := -1;
    var rest := counts.Keys;
    ghost var total := ScanMax(counts, SortedReals(counts.Keys), first, -1);
    while rest != {}
      invariant rest <= counts.Keys
      invariant ScanMax(counts, SortedReals(rest), bestLabel, maxCount) == total
      decreases |rest|
    {
      MinRealExists(rest);
      var m :| m in rest && forall x :: x in rest ==> m <= x;
      SortedRealsHead(rest, m);
      ScanMaxStep(counts, m, SortedReals(rest - {m}), bestLabel, maxCount);
      if counts[m] > maxCount {
        maxCount := counts[m];
        bestLabel := m;
      }
      rest := rest - {m};
    }
  }

  /** makeLeaf's regression value: the running sum over the node's rows
      divided by their number. */
  method LeafMean(indices: seq<int>, Y: seq<real>) returns (mean: real)
    requires ValidIdx(indices, |Y|) && |indices| > 0
    ensures mean == Mean(Targets(Y, indices))
  {
    var s := 0.0;
    for i := 0 to |indices|
      invariant s == Sum(Targets(Y, indices[..i]))
    {
      var y := Y[indices[i]];
      PrefixSumsStep(Y, indices, i, y);
      s := s + y;
    }
    assert indices[..|indices|] == indices;
    mean := s / (|indices| as real);
  }

  /** makeLeaf's value for a non-empty row set: the mode for
      classification, the mean for regression. */
  method LeafValueOf(isClassification: bool, indices: seq<int>, Y: seq<real>) returns (v: real)
    requires ValidIdx(indices, |Y|) && |indices| > 0
    ensures v == LeafValue(isClassification, Targets(Y, indices))
  {
    if isClassification {
      v := LeafMode(indices, Y);
    } else {
      v := LeafMean(indices, Y);
    }
  }

  /** partitionByThreshold: the rows with x[feat] <= thr, then the others,
      each in input order. */
  method PartitionByThreshold(X: seq<seq<real>>, feat: int, thr: real, indices: seq<int>)
    returns (L: seq<int>, R: seq<int>)
    requires HasCol(X, feat) && ValidIdx(indices, |X|)
    ensures (L, R) == Partition(X, feat, thr, indices)
  {
    L, R := [], [];
    for i := 0 to |indices|
      invariant (L, R) == Partition(X, feat, thr, indices[..i])
    {
      PartitionSnoc(X, feat, thr, indices, i);
      if X[indices[i]][feat] <= thr {
        L := L + [indices[i]];
      } else {
        R := R + [indices[i]];
      }
    }
    assert indices[..|indices|] == indices;
  }

  // ---------------------------------------------------------------------------
  // One step of the bestSplit specification
  // ---------------------------------------------------------------------------

  lemma SweepEnd(isClassification: bool, X: seq<seq<real>>, Y: seq<real>, idx: seq<int>,
                 f: int, rows: seq<int>, s: nat, best: Split)
    requires |X| == |Y| && HasCol(X, f) && ValidIdx(idx, |X|) && ValidIdx(rows, |X|) && |idx| > 0
    requires s + 1 >= |rows|
    ensures SweepFrom(isClassification, X, Y, idx, f, rows, s, best) == best
  {
  }

  lemma SweepSkip(isClassification: bool, X: seq<seq<real>>, Y: seq<real>, idx: seq<int>,
                  f: int, rows: seq<int>, s: nat, best: Split)
    requires |X| == |Y| && HasCol(X, f) && ValidIdx(idx, |X|) && ValidIdx(rows, |X|) && |idx| > 0
    requires s + 1 < |rows| && X[rows[s]][f] == X[rows[s + 1]][f]
    ensures SweepFrom(isClassification, X, Y, idx, f, rows, s, best) ==
      SweepFrom(isClassification, X, Y, idx, f, rows, s + 1, best)
  {
  }

  lemma SweepTake(isClassification: bool, X: seq<seq<real>>, Y: seq<real>, idx: seq<int>,
                  f: int, rows: seq<int>, s: nat, best: Split, gain: real)
    requires |X| == |Y| && HasCol(X, f) && ValidIdx(idx, |X|) && ValidIdx(rows, |X|) && |idx| > 0
    requires s + 1 < |rows| && X[rows[s]][f] != X[rows[s + 1]][f]
    requires gain == CandidateGain(isClassification, Y, idx, rows, s)
    ensures SweepFrom(isClassification, X, Y, idx, f, rows, s, best) ==
      if gain > best.gain then SweepFrom(isClassification, X, Y, idx, f, rows, s + 1, CandidateSplit(X, f, rows, s, gain))
      else SweepFrom(isClassification, X, Y, idx, f, rows, s + 1, best)
  {
  }

  lemma ScanFeaturesStep(isClassification: bool, X: seq<seq<real>>, Y: seq<real>, p: int, idx: seq<int>,
                 f: nat, best: Split)
    requires WellFormed(X, Y, p) && ValidIdx(idx, |X|) && |idx| > 0 && f < p
    ensures ScanFeatures(isClassification, X, Y, p, idx, f, best) ==
      ScanFeatures(isClassification, X, Y, p, idx, f + 1,
                   SweepFrom(isClassification, X, Y, idx, f, SortByFeature(X, f, idx), 0, best))
  {
  }

  lemma ScanFeaturesEnd(isClassification: bool, X: seq<seq<real>>, Y: seq<real>, p: int, idx: seq<int>,
                f: nat, best: Split)
    requires WellFormed(X, Y, p) && ValidIdx(idx, |X|) && |idx| > 0 && f >= p
    ensures ScanFeatures(isClassification, X, Y, p, idx, f, best) == best
  {
  }

  /** The impurity decrease of a cut, in terms of the sums bestSplit passes. */
  lemma SplitGainIs(isClassification: bool, vP: seq<real>, vL: seq<real>, vR: seq<real>,
                    n: int, sumP: real, sumP2: real, nL: int, sumL: real, sumL2: real,
                    nR: int, sumR: real, sumR2: real)
    requires |vP| > 0 && n == |vP| && nL == |vL| && nR == n - nL
    requires sumP == ParentSum(isClassification, vP) && sumP2 == ParentSumSq(isClassification, vP)
    requires sumL == Sum(vL) && sumL2 == SumSq(vL)
    requires sumR == sumP - sumL && sumR2 == sumP2 - sumL2
    ensures SplitGain(isClassification, vP, vL, vR) ==
      Decrease(isClassification, n, sumP, sumP2, nL, sumL, sumL2, nR, sumR, sumR2, vP, vL, vR)
  {
  }

  /** The running sums bestSplit passes to impurityDecrease describe the
      candidate cut after position s. */
  lemma GainMatches(isClassification: bool, Y: seq<real>, idx: seq<int>, rows: seq<int>, s: int,
                    n: int, sumP: real, sumP2: real, nL: int, sumL: real, sumL2: real,
                    nR: int, sumR: real, sumR2: real)
    requires ValidIdx(idx, |Y|) && ValidIdx(rows, |Y|) && |idx| > 0 && 0 <= s && s + 1 < |rows|
    requires n == |idx| && nL == s + 1 && nR == n - nL
    requires sumP == ParentSum(isClassification, Targets(Y, idx))
    requires sumP2 == ParentSumSq(isClassification, Targets(Y, idx))
    requires sumL == Sum(Targets(Y, rows[..s + 1])) && sumL2 == SumSq(Targets(Y, rows[..s + 1]))
    requires sumR == sumP - sumL && sumR2 == sumP2 - sumL2
    ensures Decrease(isClassification, n, sumP, sumP2, nL, sumL, sumL2, nR, sumR, sumR2,
                     Targets(Y, idx), Targets(Y, rows[..s + 1]), Targets(Y, rows[s + 1..]))
            == CandidateGain(isClassification, Y, idx, rows, s)
  {
    var vP, vL, vR := Targets(Y, idx), Targets(Y, rows[..s + 1]), Targets(Y, rows[s + 1..]);
    SplitGainIs(isClassification, vP, vL, vR, n, sumP, sumP2, nL, sumL, sumL2, nR, sumR, sumR2);
  }

  /** The arena after two newNode calls and the writes that make slot k an
      internal node testing feature f against thr, its children the two new
      slots. */
  function NodeSlots(a: Arena, k: int, f: int, thr: real, lch: int, rch: int): (b: Arena)
    requires Aligned(a) && 0 <= k < |a.feature|
    ensures Aligned(b) && |b.feature| == |a.feature| + 2
  {
    Arena((a.feature + [-1] + [-1])[k := f], (a.threshold + [0.0] + [0.0])[k := thr],
          (a.left + [-1] + [-1])[k := lch], (a.right + [-1] + [-1])[k := rch],
          (a.isLeaf + [false] + [false])[k := false], (a.value + [0.0] + [0.0])[k := 0.0])
  }

  /** The arena after buildTree turns slot k into an internal node whose
      children are the next two fresh slots, each then grown in turn: slot k
      encodes the whole node, its slots are k and fresh ones, and every other
      old slot is as before. */
  lemma AssembleNode(a0: Arena, a1: Arena, a2: Arena, a3: Arena, k: int, f: int, thr: real,
                      lch: int, rch: int, tl: Tree, tr: Tree)
    requires Aligned(a0) && Aligned(a2) && Aligned(a3) && 0 <= k < |a0.feature|
    requires lch == |a0.feature| && rch == lch + 1
    requires a1 == NodeSlots(a0, k, f, thr, lch, rch)
    requires Placed(a1, a2, lch, tl) && Placed(a2, a3, rch, tr)
    ensures Placed(a0, a3, k, Node(f, thr, tl, tr))
  {
    AssembleKeeps(a0, a1, a2, a3, k, f, thr, lch, rch);
    forall j | j in Reach(a2, lch, tl) ensures SameNode(a2, a3, j) {
      ReachAbove(a2, lch, tl);
    }
    EncFrame(a2, a3, lch, tl);
    AssembleEnc(a3, k, f, thr, lch, rch, tl, tr);
    AssembleWithin(k, |a0.feature|, |a2.feature|, |a3.feature|, Reach(a2, lch, tl), Reach(a3, rch, tr));
  }

  /** The writes of NodeSlots and the two placements leave every old slot but
      k alone, and slot k as NodeSlots wrote it. */
  lemma AssembleKeeps(a0: Arena, a1: Arena, a2: Arena, a3: Arena, k: int, f: int, thr: real,
                      lch: int, rch: int)
    requires Aligned(a0) && Aligned(a2) && Aligned(a3) && 0 <= k < |a0.feature|
    requires lch == |a0.feature| && rch == lch + 1
    requires a1 == NodeSlots(a0, k, f, thr, lch, rch)
    requires KeepsExcept(a1, a2, lch) && KeepsExcept(a2, a3, rch)
    ensures KeepsExcept(a0, a3, k)
    ensures SameNode(a1, a3, k) && a3.feature[k] == f && a3.threshold[k] == thr
    ensures a3.left[k] == lch && a3.right[k] == rch && !a3.isLeaf[k]
  {
    var n0 := |a0.feature|;
    assert SameNode(a1, a2, k) && SameNode(a2, a3, k);
    forall j | 0 <= j < n0 && j != k ensures SameNode(a0, a3, j) {
      assert SameNode(a0, a1, j) && SameNode(a1, a2, j) && SameNode(a2, a3, j);
    }
  }

  /** Slot k with both children encoded encodes the node. */
  lemma AssembleEnc(a: Arena, k: int, f: int, thr: real, lch: int, rch: int, tl: Tree, tr: Tree)
    requires Aligned(a) && 0 <= k < lch < rch < |a.feature|
    requires a.feature[k] == f && a.threshold[k] == thr && a.left[k] == lch && a.right[k] == rch
    requires !a.isLeaf[k] && Enc(a, lch, tl) && Enc(a, rch, tr)
    ensures Enc(a, k, Node(f, thr, tl, tr))
    ensures Reach(a, k, Node(f, thr, tl, tr)) == {k} + Reach(a, lch, tl) + Reach(a, rch, tr)
  {
  }

  /** The slots of the node are k, then the left subtree's slots from lo up
      to mid, then the right subtree's from mid up. */
  lemma AssembleWithin(k: int, lo: int, mid: int, hi: int, SL: set<int>, SR: set<int>)
    requires Within(SL, lo, lo + 1, mid) && Within(SR, lo + 1, mid, hi) && lo + 2 <= mid <= hi
    ensures Within({k} + SL + SR, k, lo, hi)
  {
    forall j | j in {k} + SL + SR ensures j == k || lo <= j < hi {
      if j in SL {
        assert j == lo || lo + 1 <= j < mid;
      } else if j in SR {
        assert j == lo + 1 || mid <= j < hi;
      }
    }
  }

  // ---------------------------------------------------------------------------
  // The tree object
  // ---------------------------------------------------------------------------

  const FitRowsMsg := "Fit: X and Y must be non-empty and have the same number of rows."
  const FitWidthMsg := "Fit: X must have at least one feature."
  const PredictUnfittedMsg := "predict: model not fitted."
  const PredictWidthMsg := "predict: feature dimension mismatch."

  class DecisionTree {
    const maxDepth: int
    const minSampleSplit: int
    const isClassification: bool
    var nNodes: int
    var nFeatures: int
    var isFitted: bool
    var feature: seq<int>
    var threshold: seq<real>
    var left: seq<int>
    var right: seq<int>
    var isLeaf: seq<bool>
    var value: seq<real>
    /** The tree the arrays encode once fitted. */
    ghost var model: Tree

    function Nodes(): Arena
      reads this
    {
      Arena(feature, threshold, left, right, isLeaf, value)
    }

    /** The arena part of the object invariant: aligned arrays counted by
        nNodes, and a fitted model encoded from the root, node 0, whose
        height respects maxDepth. */
    ghost predicate ArenaOk()
      reads this
    {
      Aligned(Nodes()) && nNodes == |feature| &&
      (isFitted ==> Enc(Nodes(), 0, model) && Height(model) <= (if maxDepth > 0 then maxDepth else 0))
    }

    ghost predicate Valid()
      reads this
    {
      ArenaOk() && PredictSafe(isFitted, nFeatures, model)
    }

    /** An empty, unfitted tree. */
    constructor(maxDepth: int, minSampleSplit: int, isClassification: bool)
      ensures Valid()
      ensures this.maxDepth == maxDepth && this.minSampleSplit == minSampleSplit
      ensures this.isClassification == isClassification
      ensures nNodes == 0 && nFeatures == 0 && !isFitted && feature == []
    {
      this.maxDepth := maxDepth;
      this.minSampleSplit := minSampleSplit;
      this.isClassification := isClassification;
      nNodes := 0;
      nFeatures := 0;
      isFitted := false;
      feature, threshold, left, right, isLeaf, value := [], [], [], [], [], [];
      model := Leaf(0.0);
    }

    /** impurityDecrease: Gini of the three row sets for classification,
        variance from the running sums for regression. */
    method ImpurityDecrease(nP: int, sumP: real, sumP2: real, nL: int, sumL: real, sumL2: real,
                            nR: int, sumR: real, sumR2: real,
                            indicesP: seq<int>, indicesL: seq<int>, indicesR: seq<int>, Y: seq<real>)
      returns (r: real)
      requires nP > 0
      requires ValidIdx(indicesP, |Y|) && ValidIdx(indicesL, |Y|) && ValidIdx(indicesR, |Y|)
      ensures r == Decrease(isClassification, nP, sumP, sumP2, nL, sumL, sumL2, nR, sumR, sumR2,
                            Targets(Y, indicesP), Targets(Y, indicesL), Targets(Y, indicesR))
    {
      if nL == 0 || nR == 0 {
        return 0.0;
      }
      if isClassification {
        var parentImp := ComputeGini(indicesP, Y);
        var leftImp := ComputeGini(indicesL, Y);
        var rightImp := ComputeGini(indicesR, Y);
        r := Weighted(parentImp, nL as real, leftImp, nR as real, rightImp, nP as real);
      } else {
        var parentImp := ComputeMse(nP, sumP, sumP2);
        var leftImp := ComputeMse(nL, sumL, sumL2);
        var rightImp := ComputeMse(nR, sumR, sumR2);
        r := Weighted(parentImp, nL as real, leftImp, nR as real, rightImp, nP as real);
      }
    }

    /** The split-point sweep of bestSplit over the sorted rows of feature
        f: running left sums, equal neighbours skipped, and a candidate taken
        only when its gain is strictly larger than the best so far. */
    method SweepSplits(X: seq<seq<real>>, Y: seq<real>, indices: seq<int>, f: int, rows: seq<int>,
                       sumP: real, sumP2: real, best: Split)
      returns (r: Split)
      requires |X| == |Y| && HasCol(X, f) && ValidIdx(indices, |X|) && |indices| > 0
      requires ValidIdx(rows, |X|) && |rows| == |indices|
      requires sumP == ParentSum(isClassification, Targets(Y, indices))
      requires sumP2 == ParentSumSq(isClassification, Targets(Y, indices))
      ensures r == SweepFrom(isClassification, X, Y, indices, f, rows, 0, best)
    {
      var n := |indices|;
      ghost var total := SweepFrom(isClassification, X, Y, indices, f, rows, 0, best);
      r := best;
      var sumL, sumL2, nL := 0.0, 0.0, 0;
      for s := 0 to n - 1
        invariant nL == s
        invariant sumL == Sum(Targets(Y, rows[..s])) && sumL2 == SumSq(Targets(Y, rows[..s]))
        invariant SweepFrom(isClassification, X, Y, indices, f, rows, s, r) == total
      {
        var xs, ys := X[rows[s]][f], Y[rows[s]];
        PrefixSumsStep(Y, rows, s, ys);
        sumL := sumL + ys;
        sumL2 := sumL2 + ys * ys;
        nL := nL + 1;
        var xNext := X[rows[s + 1]][f];
        if xs == xNext {
          SweepSkip(isClassification, X, Y, indices, f, rows, s, r);
          continue;
        }
        var nR := n - nL;
        var sumR, sumR2 := sumP - sumL, sumP2 - sumL2;
        var thr := 0.5 * (xs + xNext);
        var L, R := rows[..s + 1], rows[s + 1..];
        SliceValid(rows, |Y|, s + 1);
        var gain := ImpurityDecrease(n, sumP, sumP2, nL, sumL, sumL2, nR, sumR, sumR2, indices, L, R, Y);
        GainMatches(isClassification, Y, indices, rows, s, n, sumP, sumP2, nL, sumL, sumL2, nR, sumR, sumR2);
        SweepTake(isClassification, X, Y, indices, f, rows, s, r, gain);
        if gain > r.gain {
          assert Split(f, thr, gain, L, R) == CandidateSplit(X, f, rows, s, gain);
          r := Split(f, thr, gain, L, R);
        }
      }
      SweepEnd(isClassification, X, Y, indices, f, rows, n - 1, r);
    }

    /** The parent sums of bestSplit: the targets' sum and sum of squares
        for regression, both 0 for classification. */
    method ParentSums(Y: seq<real>, indices: seq<int>) returns (sumP: real, sumP2: real)
      requires ValidIdx(indices, |Y|)
      ensures sumP == ParentSum(isClassification, Targets(Y, indices))
      ensures sumP2 == ParentSumSq(isClassification, Targets(Y, indices))
    {
      sumP, sumP2 := 0.0, 0.0;
      if !isClassification {
        for i := 0 to |indices|
          invariant sumP == Sum(Targets(Y, indices[..i])) && sumP2 == SumSq(Targets(Y, indices[..i]))
        {
          var y := Y[indices[i]];
          PrefixSumsStep(Y, indices, i, y);
          sumP := sumP + y;
          sumP2 := sumP2 + y * y;
        }
        assert indices[..|indices|] == indices;
      }
    }

    /** The feature loop of bestSplit: for each feature in turn, the rows
        sorted by it and swept, the best split carried across features. */
    method ScanAllFeatures(X: seq<seq<real>>, Y: seq<real>, indices: seq<int>, sumP: real, sumP2: real)
      returns (best: Split)
      requires WellFormed(X, Y, nFeatures) && ValidIdx(indices, |X|) && |indices| > 0
      requires sumP == ParentSum(isClassification, Targets(Y, indices))
      requires sumP2 == ParentSumSq(isClassification, Targets(Y, indices))
      ensures best == ScanFeatures(isClassification, X, Y, nFeatures, indices, 0, NoSplit)
    {
      best := NoSplit;
      ghost var total := ScanFeatures(isClassification, X, Y, nFeatures, indices, 0, NoSplit);
      for f := 0 to nFeatures
        invariant ScanFeatures(isClassification, X, Y, nFeatures, indices, f, best) == total
      {
        var rows := SortByFeature(X, f, indices);
        ScanFeaturesStep(isClassification, X, Y, nFeatures, indices, f, best);
        best := SweepSplits(X, Y, indices, f, rows, sumP, sumP2, best);
      }
      ScanFeaturesEnd(isClassification, X, Y, nFeatures, indices, nFeatures, best);
    }

    /** bestSplit, proved equal to its specification BestSplitSpec: the
        parent sums (regression only), the feature loop over the rows sorted
        by each feature, and no split when no candidate has positive gain. */
    method BestSplit(X: seq<seq<real>>, Y: seq<real>, indices: seq<int>)
      returns (bestFeat: int, bestThr: real, bestGain: real, bestL: seq<int>, bestR: seq<int>)
      requires WellFormed(X, Y, nFeatures) && ValidIdx(indices, |X|)
      ensures Split(bestFeat, bestThr, bestGain, bestL, bestR) ==
        BestSplitSpec(isClassification, minSampleSplit, X, Y, nFeatures, indices)
    {
      var n := |indices|;
      if n < minSampleSplit || n == 0 {
        return -1, 0.0, 0.0, [], [];
      }
      var sumP, sumP2 := ParentSums(Y, indices);
      var best := ScanAllFeatures(X, Y, indices, sumP, sumP2);
      if best.feat == -1 {
        return -1, 0.0, 0.0, [], [];
      }
      return best.feat, best.thr, best.gain, best.left, best.right;
    }

    /** newNode: one default slot appended to each of the six arrays; the
        result is the new slot's index. */
    method NewNode() returns (id: int)
      requires Aligned(Nodes())
      modifies this
      ensures id == old(|feature|) && nNodes == |feature|
      ensures feature == old(feature) + [-1] && threshold == old(threshold) + [0.0]
      ensures left == old(left) + [-1] && right == old(right) + [-1]
      ensures isLeaf == old(isLeaf) + [false] && value == old(value) + [0.0]
      ensures nFeatures == old(nFeatures) && isFitted == old(isFitted) && unchanged(this`model)
    {
      id := |feature|;
      feature := feature + [-1];
      threshold := threshold + [0.0];
      left := left + [-1];
      right := right + [-1];
      isLeaf := isLeaf + [false];
      value := value + [0.0];
      nNodes := |feature|;
    }

    /** makeLeaf: slot nodeIndex becomes a leaf holding the leaf value of
        its rows. With no rows only the leaf flag and the value (0) are
        written; otherwise the feature, threshold and children are reset. */
    method MakeLeaf(nodeIndex: int, indices: seq<int>, Y: seq<real>)
      requires Aligned(Nodes()) && 0 <= nodeIndex < |feature| && ValidIdx(indices, |Y|)
      modifies this
      ensures value == old(value)[nodeIndex := LeafValue(isClassification, Targets(Y, indices))]
      ensures isLeaf == old(isLeaf)[nodeIndex := true]
      ensures |indices| == 0 ==>
        feature == old(feature) && threshold == old(threshold) && left == old(left) && right == old(right)
      ensures |indices| > 0 ==>
        feature == old(feature)[nodeIndex := -1] && threshold == old(threshold)[nodeIndex := 0.0] &&
        left == old(left)[nodeIndex := -1] && right == old(right)[nodeIndex := -1]
      ensures nNodes == old(nNodes) && nFeatures == old(nFeatures) && isFitted == old(isFitted)
      ensures unchanged(this`model)
    {
      var v := 0.0;
      if |indices| > 0 {
        v := LeafValueOf(isClassification, indices, Y);
        feature, threshold, left, right :=
          feature[nodeIndex := -1], threshold[nodeIndex := 0.0], left[nodeIndex := -1], right[nodeIndex := -1];
      }
      value, isLeaf := value[nodeIndex := v], isLeaf[nodeIndex := true];
    }

    /** The writes buildTree makes to turn slot nodeIndex into an internal
        node testing x[bf] <= thr with children lch and rch. */
    method SetSplit(nodeIndex: int, bf: int, thr: real, lch: int, rch: int)
      requires Aligned(Nodes()) && 0 <= nodeIndex < |feature|
      modifies this
      ensures Nodes() == Arena(old(feature)[nodeIndex := bf], old(threshold)[nodeIndex := thr],
                               old(left)[nodeIndex := lch], old(right)[nodeIndex := rch],
                               old(isLeaf)[nodeIndex := false], old(value)[nodeIndex := 0.0])
      ensures nNodes == old(nNodes) && nFeatures == old(nFeatures) && isFitted == old(isFitted)
      ensures unchanged(this`model)
    {
      feature := feature[nodeIndex := bf];
      threshold := threshold[nodeIndex := thr];
      left := left[nodeIndex := lch];
      right := right[nodeIndex := rch];
      isLeaf := isLeaf[nodeIndex := false];
      value := value[nodeIndex := 0.0];
    }

    /** makeLeaf as buildTree uses it: slot nodeIndex becomes the leaf. */
    method BuildLeaf(nodeIndex: int, indices: seq<int>, Y: seq<real>)
      requires Aligned(Nodes()) && nNodes == |feature| && 0 <= nodeIndex < |feature|
      requires ValidIdx(indices, |Y|)
      modifies this
      ensures nFeatures == old(nFeatures) && isFitted == old(isFitted) && unchanged(this`model)
      ensures Aligned(Nodes()) && nNodes == |feature|
      ensures Placed(old(Nodes()), Nodes(), nodeIndex, Leaf(LeafValue(isClassification, Targets(Y, indices))))
    {
      MakeLeaf(nodeIndex, indices, Y);
    }

    /** buildTree: grows Grow(...) of the rows `indices` at depth `depth`
        into slot nodeIndex, allocating fresh slots for its descendants and
        leaving every other existing slot as it was. */
    method BuildTree(X: seq<seq<real>>, Y: seq<real>, indices: seq<int>, depth: int, nodeIndex: int)
      requires Aligned(Nodes()) && nNodes == |feature| && 0 <= nodeIndex < |feature|
      requires WellFormed(X, Y, nFeatures) && ValidIdx(indices, |X|)
      modifies this
      decreases |indices|, 1
      ensures nFeatures == old(nFeatures) && isFitted == old(isFitted) && unchanged(this`model)
      ensures Aligned(Nodes()) && nNodes == |feature|
      ensures Placed(old(Nodes()), Nodes(), nodeIndex,
        Grow(isClassification, maxDepth, minSampleSplit, X, Y, nFeatures, indices, depth))
    {
      if depth >= maxDepth || |indices| < minSampleSplit {
        GrowStops(isClassification, maxDepth, minSampleSplit, X, Y, nFeatures, indices, depth);
        BuildLeaf(nodeIndex, indices, Y);
        return;
      }
      var bf, thr, gain, lIdx, rIdx := BestSplit(X, Y, indices);
      if bf == -1 || gain <= 0.0 {
        GrowNoSplit(isClassification, maxDepth, minSampleSplit, X, Y, nFeatures, indices, depth);
        BuildLeaf(nodeIndex, indices, Y);
        return;
      }
      GrowNode(isClassification, maxDepth, minSampleSplit, X, Y, nFeatures, indices, depth,
               bf, thr, gain, lIdx, rIdx);
      BuildChildren(X, Y, lIdx, rIdx, depth, nodeIndex, bf, thr, |indices|);
    }

    /** The split case of buildTree: two fresh slots for the children, the
        split written into slot nodeIndex, then each child grown in turn. */
    method BuildChildren(X: seq<seq<real>>, Y: seq<real>, lIdx: seq<int>, rIdx: seq<int>,
                         depth: int, nodeIndex: int, bf: int, thr: real, ghost bound: nat)
      requires Aligned(Nodes()) && nNodes == |feature| && 0 <= nodeIndex < |feature|
      requires WellFormed(X, Y, nFeatures) && ValidIdx(lIdx, |X|) && ValidIdx(rIdx, |X|)
      requires |lIdx| < bound && |rIdx| < bound
      modifies this
      decreases bound, 0
      ensures nFeatures == old(nFeatures) && isFitted == old(isFitted) && unchanged(this`model)
      ensures Aligned(Nodes()) && nNodes == |feature|
      ensures Placed(old(Nodes()), Nodes(), nodeIndex, Node(bf, thr,
          Grow(isClassification, maxDepth, minSampleSplit, X, Y, nFeatures, lIdx, depth + 1),
          Grow(isClassification, maxDepth, minSampleSplit, X, Y, nFeatures, rIdx, depth + 1)))
    {
      ghost var p := nFeatures;
      ghost var tl := Grow(isClassification, maxDepth, minSampleSplit, X, Y, p, lIdx, depth + 1);
      ghost var tr := Grow(isClassification, maxDepth, minSampleSplit, X, Y, p, rIdx, depth + 1);
      ghost var a0 := Nodes();
      var lch := NewNode();
      var rch := NewNode();
      SetSplit(nodeIndex, bf, thr, lch, rch);
      ghost var a1 := Nodes();
      assert a1 == NodeSlots(a0, nodeIndex, bf, thr, lch, rch);
      BuildTree(X, Y, lIdx, depth + 1, lch);
      ghost var a2 := Nodes();
      BuildTree(X, Y, rIdx, depth + 1, rch);
      AssembleNode(a0, a1, a2, Nodes(), nodeIndex, bf, thr, lch, rch, tl, tr);
    }

    /** fit's common part once the table is accepted: reset the storage,
        allocate the root, grow the tree on all rows from depth 0. */
    method Refit(X: seq<seq<real>>, Y: seq<real>)
      requires Aligned(Nodes()) && nNodes == |feature|
      requires |X| > 0 && |X| == |Y| && nFeatures > 0 && Wide(X, nFeatures)
      modifies this
      ensures nFeatures == old(nFeatures) && isFitted
      ensures model == Grow(isClassification, maxDepth, minSampleSplit, X, Y, nFeatures, Range(|X|), 0)
      ensures Valid() && nNodes == Size(model)
    {
      feature, threshold, left, right, isLeaf, value, nNodes := [], [], [], [], [], [], 0;
      var root := NewNode();
      var idx := Iota(|X|);
      ghost var t := Grow(isClassification, maxDepth, minSampleSplit, X, Y, nFeatures, idx, 0);
      GrowHeight(isClassification, maxDepth, minSampleSplit, X, Y, nFeatures, idx, 0);
      GrowFeaturesBelow(isClassification, maxDepth, minSampleSplit, X, Y, nFeatures, idx, 0);
      BuildTree(X, Y, idx, 0, root);
      Commit(t);
    }

    /** The end of fit: the arrays encode t from the root, so the object is
        fitted with model t. */
    method Commit(ghost t: Tree)
      requires Aligned(Nodes()) && nNodes == |feature| && Enc(Nodes(), 0, t)
      requires Height(t) <= (if maxDepth > 0 then maxDepth else 0) && FeaturesBelow(t, nFeatures)
      modifies this
      ensures isFitted && model == t && Valid()
      ensures Nodes() == old(Nodes()) && nNodes == old(nNodes) && nFeatures == old(nFeatures)
    {
      isFitted := true;
      model := t;
    }

    /** fit, with the feature count written only once the table has passed
        both checks: a rejected table leaves the object as it was. */
    method Fit(X: seq<seq<real>>, Y: seq<real>) returns (r: Outcome)
      requires ArenaOk()
      requires |X| > 0 ==> Wide(X, |X[0]|)
      modifies this
      ensures ArenaOk()
      ensures (|X| == 0 || |Y| == 0 || |X| != |Y|) ==>
        r == Fail(InvalidArgument(FitRowsMsg)) && unchanged(this)
      ensures |X| > 0 && |X| == |Y| && |X[0]| == 0 ==>
        r == Fail(InvalidArgument(FitWidthMsg)) && unchanged(this)
      ensures |X| > 0 && |X| == |Y| && |X[0]| > 0 ==>
        r == Pass && Valid() && isFitted && nFeatures == |X[0]| && nNodes == Size(model) &&
        model == Grow(isClassification, maxDepth, minSampleSplit, X, Y, |X[0]|, Range(|X|), 0)
    {
      if |X| == 0 || |Y| == 0 || |X| != |Y| {
        return Fail(InvalidArgument(FitRowsMsg));
      }
      if |X[0]| == 0 {
        return Fail(InvalidArgument(FitWidthMsg));
      }
      nFeatures := |X[0]|;
      Refit(X, Y);
      r := Pass;
    }

    /** fit as the library writes it: the feature count is overwritten
        before the zero-width check, so that rejection still changes it. */
    method FitAsWritten(X: seq<seq<real>>, Y: seq<real>) returns (r: Outcome)
      requires ArenaOk()
      requires |X| > 0 ==> Wide(X, |X[0]|)
      modifies this
      ensures ArenaOk()
      ensures (|X| == 0 || |Y| == 0 || |X| != |Y|) ==>
        r == Fail(InvalidArgument(FitRowsMsg)) && unchanged(this)
      ensures |X| > 0 && |X| == |Y| && |X[0]| == 0 ==>
        r == Fail(InvalidArgument(FitWidthMsg)) && nFeatures == 0 &&
        Nodes() == old(Nodes()) && nNodes == old(nNodes) &&
        isFitted == old(isFitted) && unchanged(this`model)
      ensures |X| > 0 && |X| == |Y| && |X[0]| == 0 && old(isFitted) && old(model).Node? ==>
        !PredictSafe(isFitted, nFeatures, model)
      ensures |X| > 0 && |X| == |Y| && |X[0]| > 0 ==>
        r == Pass && Valid() && isFitted && nFeatures == |X[0]| && nNodes == Size(model) &&
        model == Grow(isClassification, maxDepth, minSampleSplit, X, Y, |X[0]|, Range(|X|), 0)
    {
      if |X| == 0 || |Y| == 0 || |X| != |Y| {
        return Fail(InvalidArgument(FitRowsMsg));
      }
      nFeatures := |X[0]|;
      if nFeatures == 0 {
        if isFitted && model.Node? {
          ZeroWidthBreaksPredictSafe(model);
        }
        return Fail(InvalidArgument(FitWidthMsg));
      }
      Refit(X, Y);
      r := Pass;
    }

    /** predict: walk from the root, left when the row's feature is at most
        the threshold, until a leaf; its value is the prediction of the
        tree the arrays encode. */
    method Predict(x: seq<real>) returns (r: Result<real>)
      requires Valid()
      ensures !isFitted ==> r == Err(RuntimeError(PredictUnfittedMsg))
      ensures isFitted && |x| != nFeatures ==> r == Err(InvalidArgument(PredictWidthMsg))
      ensures isFitted && |x| == nFeatures ==> FeaturesBelow(model, |x|) && r == Ok(Eval(model, x))
    {
      if !isFitted {
        return Err(RuntimeError(PredictUnfittedMsg));
      }
      if |x| != nFeatures {
        return Err(InvalidArgument(PredictWidthMsg));
      }
      var node := 0;
      ghost var sub := model;
      while !isLeaf[node]
        invariant Enc(Nodes(), node, sub) && FeaturesBelow(sub, |x|)
        invariant Eval(sub, x) == Eval(model, x)
        decreases sub
      {
        var f := feature[node];
        var thr := threshold[node];
        if x[f] <= thr {
          node := left[node];
          sub := sub.left;
        } else {
          node := right[node];
          sub := sub.right;
        }
      }
      r := Ok(value[node]);
    }
  }

  /** A fitted model that splits at least once tests some feature, so it is
      unsafe to predict with once the feature count has become 0. */
  lemma ZeroWidthBreaksPredictSafe(model: Tree)
    requires model.Node?
    ensures !PredictSafe(true, 0, model)
  { }

  /** The first fit of the zero-width input: a regression tree fitted on
      the rows [0] and [1] with targets 0 and 1 splits its root (the cut
      between them lowers the variance from 1/4 to 0), whenever the depth
      and split settings allow a split, so a later zero-width rejection
      leaves it unsafe to predict with. */
  lemma TwoRowFitSplits(maxDepth: int, minSampleSplit: int)
    requires maxDepth > 0 && minSampleSplit <= 2
    ensures Grow(false, maxDepth, minSampleSplit, [[0.0], [1.0]], [0.0, 1.0], 1, Range(2), 0).Node?
    ensures !PredictSafe(true, 0, Grow(false, maxDepth, minSampleSplit, [[0.0], [1.0]], [0.0, 1.0], 1, Range(2), 0))
  {
    var X: seq<seq<real>> := [[0.0], [1.0]];
    var Y: seq<real> := [0.0, 1.0];
    var idx := Range(2);
    assert idx == [0, 1];
    TwoRowCandidate(X, Y, idx);
    GrowLeafIff(false, maxDepth, minSampleSplit, X, Y, 1, idx, 0);
    ZeroWidthBreaksPredictSafe(Grow(false, maxDepth, minSampleSplit, X, Y, 1, idx, 0));
  }

  /** The zero-width input end to end, on fit as written: fitting the rows
      [0] and [1] with targets 0 and 1 succeeds with a splitting tree; the
      second call, on one empty row, is rejected yet leaves the tree fitted
      with feature count 0, so the width check of predict passes an empty
      row that the root's test reads. */
  method ZeroWidthRefit() returns (t: DecisionTree, first: Outcome, second: Outcome)
    ensures first == Pass && second == Fail(InvalidArgument(FitWidthMsg))
    ensures t.isFitted && t.nFeatures == 0 && t.model.Node? && t.model.feat == 0
    ensures !PredictSafe(t.isFitted, t.nFeatures, t.model)
  {
    t := new DecisionTree(10, 2, false);
    var X: seq<seq<real>> := [[0.0], [1.0]];
    var Y: seq<real> := [0.0, 1.0];
    first := t.FitAsWritten(X, Y);
    TwoRowFitSplits(10, 2);
    var empty: seq<seq<real>> := [[]];
    second := t.FitAsWritten(empty, [0.0]);
  }

  /** The same two calls on the corrected fit: the rejection leaves the
      fitted tree and its feature count as they were, safe to predict with. */
  method ZeroWidthRefitCorrected() returns (t: DecisionTree, first: Outcome, second: Outcome)
    ensures first == Pass && second == Fail(InvalidArgument(FitWidthMsg))
    ensures t.isFitted && t.nFeatures == 1 && t.Valid() && PredictSafe(t.isFitted, t.nFeatures, t.model)
  {
    t := new DecisionTree(10, 2, false);
    var X: seq<seq<real>> := [[0.0], [1.0]];
    var Y: seq<real> := [0.0, 1.0];
    first := t.Fit(X, Y);
    var empty: seq<seq<real>> := [[]];
    second := t.Fit(empty, [0.0]);
  }

  /** Position 0 of feature 0 is a candidate of the two rows, with gain 1/4. */
  lemma TwoRowCandidate(X: seq<seq<real>>, Y: seq<real>, idx: seq<int>)
    requires X == [[0.0], [1.0]] && Y == [0.0, 1.0] && idx == [0, 1]
    ensures WellFormed(X, Y, 1) && ValidIdx(idx, |X|) && FeatureCandidate(X, 1, idx, 0, 0)
    ensures FeatureGain(false, X, Y, 1, idx, 0, 0) == 0.25
  {
    TwoRowSorted(X, idx);
    var rows := SortByFeature(X, 0, idx);
    var vP, vL, vR := Targets(Y, idx), Targets(Y, rows[..1]), Targets(Y, rows[1..]);
    TwoRowTargets(Y, idx, rows);
    FeatureGainOfCut(false, X, Y, 1, idx, 0, 0, vP, vL, vR);
    TwoValueGain(vP, vL, vR);
  }

  /** The gain of candidate t of feature g, stated on the three target lists. */
  lemma FeatureGainOfCut(isClassification: bool, X: seq<seq<real>>, Y: seq<real>, p: int, idx: seq<int>,
                         g: int, t: int, vP: seq<real>, vL: seq<real>, vR: seq<real>)
    requires WellFormed(X, Y, p) && ValidIdx(idx, |X|) && |idx| > 0 && FeatureCandidate(X, p, idx, g, t)
    requires vP == Targets(Y, idx)
    requires vL == Targets(Y, SortByFeature(X, g, idx)[..t + 1])
    requires vR == Targets(Y, SortByFeature(X, g, idx)[t + 1..])
    ensures FeatureGain(isClassification, X, Y, p, idx, g, t) == SplitGain(isClassification, vP, vL, vR)
  { }

  /** The targets of the two rows, of the first and of the second. */
  lemma TwoRowTargets(Y: seq<real>, idx: seq<int>, rows: seq<int>)
    requires Y == [0.0, 1.0] && idx == [0, 1] && rows == [0, 1]
    ensures ValidIdx(idx, |Y|) && ValidIdx(rows, |Y|)
    ensures Targets(Y, idx) == [0.0, 1.0] && Targets(Y, rows[..1]) == [0.0] && Targets(Y, rows[1..]) == [1.0]
  {
    assert idx[..1] == [0] && rows[..1] == [0] && rows[1..] == [1];
  }

  /** The two rows are already in ascending order of feature 0. */
  lemma TwoRowSorted(X: seq<seq<real>>, idx: seq<int>)
    requires X == [[0.0], [1.0]] && idx == [0, 1]
    ensures HasCol(X, 0) && ValidIdx(idx, |X|) && SortByFeature(X, 0, idx) == [0, 1]
    ensures Wide(X, 1) && FeatureCandidate(X, 1, idx, 0, 0)
  {
    assert idx[..1] == [0];
    assert SortByFeature(X, 0, [0]) == [0];
  }

  /** Cutting the targets [0, 1] into [0] and [1] lowers the variance from
      1/4 to 0. */
  lemma TwoValueGain(vP: seq<real>, vL: seq<real>, vR: seq<real>)
    requires vP == [0.0, 1.0] && vL == [0.0] && vR == [1.0]
    ensures SplitGain(false, vP, vL, vR) == 0.25
  {
    assert vL[..0] == [];
    assert Sum(vL) == 0.0 && SumSq(vL) == 0.0;
    assert vP[..1] == vL;
    assert Sum(vP) == 1.0 && SumSq(vP) == 1.0;
    assert ComputeMse(2, 1.0, 1.0) == 0.25;
    assert ComputeMse(1, 0.0, 0.0) == 0.0;
    assert ComputeMse(1, 1.0, 1.0) == 0.0;
  }

  /** Fitting on a single row gives the one-leaf tree predicting its target,
      whatever the hyperparameters. */
  lemma FitSingleRow(isClassification: bool, maxDepth: int, minSampleSplit: int,
                     X: seq<seq<real>>, Y: seq<real>, x: seq<real>)
    requires |X| == 1 && |Y| == 1 && |X[0]| > 0
    ensures Grow(isClassification, maxDepth, minSampleSplit, X, Y, |X[0]|, Range(|X|), 0) == Leaf(Y[0])
    ensures Eval(Grow(isClassification, maxDepth, minSampleSplit, X, Y, |X[0]|, Range(|X|), 0), x) == Y[0]
  {
    assert Range(|X|) == [0];
    GrowSingle(isClassification, maxDepth, minSampleSplit, X, Y, |X[0]|, 0, 0);
  }

  // ---------------------------------------------------------------------------
  // Fitting on a sample of the rows
  // ---------------------------------------------------------------------------

  /** The feature rows of a sample, in sample order. */
  function Sample(X: seq<seq<real>>, rows: seq<int>): (r: seq<seq<real>>)
    requires ValidIdx(rows, |X|)
    ensures |r| == |rows| && forall k :: 0 <= k < |rows| ==> r[k] == X[rows[k]]
  {
    if |rows| == 0 then [] else Sample(X, rows[..|rows| - 1]) + [X[rows[|rows| - 1]]]
  }

  /** Without bootstrap a tree sees exactly the training table. */
  lemma {:induction false} IdentitySample(X: seq<seq<real>>, Y: seq<real>)
    requires |X| == |Y|
    ensures Sample(X, Range(|X|)) == X && Targets(Y, Range(|Y|)) == Y
  {
    var r := Range(|X|);
    var sx, sy := Sample(X, r), Targets(Y, r);
    assert forall k :: 0 <= k < |X| ==> sx[k] == X[k] && sy[k] == Y[k];
  }

  /** The model DecisionTree::fit grows on the table (Xs, Ys) of width p:
      the tree of every row from depth 0. */
  ghost function FitModel(isClassification: bool, maxDepth: int, minSamplesSplit: int,
                          Xs: seq<seq<real>>, Ys: seq<real>, p: int): (t: Tree)
    requires WellFormed(Xs, Ys, p)
    ensures FeaturesBelow(t, p)
  {
    GrowFeaturesBelow(isClassification, maxDepth, minSamplesSplit, Xs, Ys, p, Range(|Xs|), 0);
    Grow(isClassification, maxDepth, minSamplesSplit, Xs, Ys, p, Range(|Xs|), 0)
  }

  /** The tree DecisionTree::fit grows on the sample `rows` of a width-p
      table: the sampled rows with their targets, in sample order. */
  ghost function TreeModel(isClassification: bool, maxDepth: int, minSamplesSplit: int,
                           X: seq<seq<real>>, Y: seq<real>, p: int, rows: seq<int>): (t: Tree)
    requires WellFormed(X, Y, p) && ValidIdx(rows, |X|)
    ensures FeaturesBelow(t, p)
  {
    SampleWellFormed(X, Y, p, rows);
    FitModel(isClassification, maxDepth, minSamplesSplit, Sample(X, rows), Targets(Y, rows), p)
  }

  /** A sample of a width-p table is a width-p table with one target per row. */
  lemma SampleWellFormed(X: seq<seq<real>>, Y: seq<real>, p: int, rows: seq<int>)
    requires WellFormed(X, Y, p) && ValidIdx(rows, |X|)
    ensures WellFormed(Sample(X, rows), Targets(Y, rows), p)
  {
  }

  /** The loop that copies the sampled rows and their targets. */
  method Materialize(X: seq<seq<real>>, Y: seq<real>, indices: seq<int>) returns (Xb: seq<seq<real>>, Yb: seq<real>)
    requires |X| == |Y| && ValidIdx(indices, |X|)
    ensures Xb == Sample(X, indices) && Yb == Targets(Y, indices)
  {
    Xb, Yb := [], [];
    for i := 0 to |indices|
      invariant Xb == Sample(X, indices[..i]) && Yb == Targets(Y, indices[..i])
    {
      assert indices[..i + 1][..i] == indices[..i];
      Xb := Xb + [X[indices[i]]];
      Yb := Yb + [Y[indices[i]]];
    }
    assert indices[..|indices|] == indices;
  }

  /** Every tree tests only features below w. */
  ghost predicate AllBelow(models: seq<Tree>, w: int)
  {
    forall i :: 0 <= i < |models| ==> FeaturesBelow(models[i], w)
  }

  /** Each of 0 .. n-1 occurs once in Range(n), nothing else occurs. */
  lemma {:induction false} RangeMultiplicity(n: nat, x: int)
    ensures multiset(Range(n))[x] == if 0 <= x < n then 1 else 0
  {
    if n > 0 {
      RangeMultiplicity(n - 1, x);
      var r := Range(n - 1);
      assert Range(n) == r + [n - 1];
      assert multiset(r + [n - 1]) == multiset(r) + multiset{n - 1};
    }
  }

  lemma RepeatMultiplicity(s: seq<int>, i: int, j: int)
    requires 0 <= i < j < |s| && s[i] == s[j]
    ensures multiset(s)[s[i]] >= 2
  {
    assert s == s[..i] + [s[i]] + s[i + 1..j] + [s[j]] + s[j + 1..];
  }

  /** A shuffle of 0 .. p-1 holds each feature in [0, p) exactly once. */
  lemma PermutationOfRange(perm: seq<int>, p: nat)
    requires multiset(perm) == multiset(Range(p))
    ensures |perm| == p
    ensures forall k :: 0 <= k < |perm| ==> 0 <= perm[k] < p
    ensures forall i, j :: 0 <= i < j < |perm| ==> perm[i] != perm[j]
  {
    assert |multiset(perm)| == |perm| && |multiset(Range(p))| == p;
    forall k | 0 <= k < |perm| ensures 0 <= perm[k] < p {
      assert perm[k] in multiset(perm);
      RangeMultiplicity(p, perm[k]);
    }
    forall i, j | 0 <= i < j < |perm| ensures perm[i] != perm[j] {
      if perm[i] == perm[j] {
        RepeatMultiplicity(perm, i, j);
        RangeMultiplicity(p, perm[i]);
      }
    }
  }
}
