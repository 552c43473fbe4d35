/** The search for the best axis-aligned split of one tree node: the order of
    rows by one feature, the candidate split points between distinct adjacent
    values, their impurity decrease, and the strict "keep the first best"
    scan over features and split points. */
module SplitSearch {
  import opened Numeric
  import opened Impurity

  // ---------------------------------------------------------------------------
  // Training table and row subsets
  // ---------------------------------------------------------------------------

  /** Every entry of `idx` names one of `n` rows. */
  predicate ValidIdx(idx: seq<int>, n: int)
  {
    forall k :: 0 <= k < |idx| ==> 0 <= idx[k] < n
  }

  /** Every row has at least `p` columns. */
  predicate Wide(X: seq<seq<real>>, p: int)
  {
    forall i :: 0 <= i < |X| ==> |X[i]| >= p
  }

  /** A training table: one target per row and `p` readable features. */
  predicate WellFormed(X: seq<seq<real>>, Y: seq<real>, p: int)
  {
    |X| == |Y| && 0 <= p && Wide(X, p)
  }

  /** The targets of the rows `idx`, in that order. */
  function Targets(Y: seq<real>, idx: seq<int>): (r: seq<real>)
    requires ValidIdx(idx, |Y|)
    ensures |r| == |idx|
    ensures forall k :: 0 <= k < |idx| ==> r[k] == Y[idx[k]]
  {
    if |idx| == 0 then [] else Targets(Y, idx[..|idx| - 1]) + [Y[idx[|idx| - 1]]]
  }

  lemma {:induction false} TargetsAppend(Y: seq<real>, a: seq<int>, b: seq<int>)
    requires ValidIdx(a, |Y|) && ValidIdx(b, |Y|)
    ensures ValidIdx(a + b, |Y|)
    ensures Targets(Y, a + b) == Targets(Y, a) + Targets(Y, b)
  {
    assert ValidIdx(a + b, |Y|) by {
      forall k | 0 <= k < |a + b| ensures 0 <= (a + b)[k] < |Y| {
        if k >= |a| { assert (a + b)[k] == b[k - |a|]; }
      }
    }
  }

  lemma TargetsRemoveParts(Y: seq<real>, A: seq<int>, x: int, B: seq<int>)
    requires ValidIdx(A, |Y|) && ValidIdx(B, |Y|) && 0 <= x < |Y|
    ensures ValidIdx(A + B, |Y|) && ValidIdx(A + [x] + B, |Y|)
    ensures multiset(Targets(Y, A + [x] + B)) == multiset(Targets(Y, A + B)) + multiset{Y[x]}
  {
    assert Targets(Y, [x]) == [Y[x]];
    TargetsAppend(Y, A, [x]);
    TargetsAppend(Y, A + [x], B);
    TargetsAppend(Y, A, B);
  }

  /** Taking row j out of `b` takes its target out of the targets. */
  lemma TargetsRemove(Y: seq<real>, b: seq<int>, j: int)
    requires ValidIdx(b, |Y|) && 0 <= j < |b|
    ensures ValidIdx(b[..j] + b[j + 1..], |Y|)
    ensures multiset(Targets(Y, b)) == multiset(Targets(Y, b[..j] + b[j + 1..])) + multiset{Y[b[j]]}
  {
    var A, x, B := b[..j], b[j], b[j + 1..];
    assert b == A + [x] + B;
    assert ValidIdx(A, |Y|) && ValidIdx(B, |Y|);
    TargetsRemoveParts(Y, A, x, B);
  }

  /** Reordering the rows reorders their targets. */
  lemma {:induction false} TargetsPermutation(Y: seq<real>, a: seq<int>, b: seq<int>)
    requires ValidIdx(a, |Y|) && ValidIdx(b, |Y|)
    requires multiset(a) == multiset(b)
    ensures multiset(Targets(Y, a)) == multiset(Targets(Y, b))
    decreases |a|
  {
    if |a| > 0 {
      var j := PermutationRemoveLast(a, b);
      TargetsRemove(Y, b, j);
      var a' := a[..|a| - 1];
      assert ValidIdx(a', |Y|);
      TargetsPermutation(Y, a', b[..j] + b[j + 1..]);
      assert Targets(Y, a) == Targets(Y, a') + [Y[a[|a| - 1]]];
    } else {
      assert |b| == 0;
    }
  }

  // ---------------------------------------------------------------------------
  // Ordering rows by one feature (the std::sort of bestSplit)
  // ---------------------------------------------------------------------------

  /** Column `f` exists in every row. */
  predicate HasCol(X: seq<seq<real>>, f: int)
  {
    0 <= f && Wide(X, f + 1)
  }

  /** The rows `s` are in ascending order of feature `f`. */
  predicate Sorted(X: seq<seq<real>>, f: int, s: seq<int>)
    requires HasCol(X, f) && ValidIdx(s, |X|)
  {
    forall a, b :: 0 <= a < b < |s| ==> X[s[a]][f] <= X[s[b]][f]
  }

  /** Insert row `i` after the last row of `t` whose feature-f value is at
      most its own. */
  function Insert(X: seq<seq<real>>, f: int, t: seq<int>, i: int): (r: seq<int>)
    requires HasCol(X, f) && ValidIdx(t, |X|) && 0 <= i < |X|
    ensures |r| == |t| + 1
    ensures multiset(r) == multiset(t) + multiset{i}
    ensures ValidIdx(r, |X|)
  {
    if |t| == 0 then [i]
    else if X[t[|t| - 1]][f] <= X[i][f] then t + [i]
    else
      var t', last := t[..|t| - 1], t[|t| - 1];
      assert t == t' + [last];
      var r' := Insert(X, f, t', i);
      InsertStep(t', last, i, r', |X|);
      r' + [last]
  }

  /** The recursive case of Insert: appending the last row after inserting
      into the rest keeps the length, multiset and index facts. */
  lemma InsertStep(t': seq<int>, last: int, i: int, r': seq<int>, n: int)
    requires ValidIdx(r', n) && 0 <= last < n
    requires |r'| == |t'| + 1 && multiset(r') == multiset(t') + multiset{i}
    ensures |r' + [last]| == |t' + [last]| + 1
    ensures multiset(r' + [last]) == multiset(t' + [last]) + multiset{i}
    ensures ValidIdx(r' + [last], n)
  {
    assert multiset(r' + [last]) == multiset(r') + multiset{last};
    assert multiset(t' + [last]) == multiset(t') + multiset{last};
    forall k | 0 <= k < |r'| + 1 ensures 0 <= (r' + [last])[k] < n {
      if k < |r'| {
        assert (r' + [last])[k] == r'[k];
      }
    }
  }

  lemma {:induction false} InsertSorted(X: seq<seq<real>>, f: int, t: seq<int>, i: int)
    requires HasCol(X, f) && ValidIdx(t, |X|) && 0 <= i < |X|
    requires Sorted(X, f, t)
    ensures Sorted(X, f, Insert(X, f, t, i))
    decreases |t|
  {
    if |t| > 0 {
      var last := t[|t| - 1];
      if X[last][f] > X[i][f] {
        var t' := t[..|t| - 1];
        assert ValidIdx(t', |X|);
        assert Sorted(X, f, t');
        InsertSorted(X, f, t', i);
        forall k | 0 <= k < |t'| ensures X[t'[k]][f] <= X[last][f] {
          assert t'[k] == t[k];
        }
        InsertBounded(X, f, t', i, X[last][f]);
        SortedSnoc(X, f, Insert(X, f, t', i), last);
      } else {
        forall k | 0 <= k < |t| ensures X[t[k]][f] <= X[i][f] {
          if k < |t| - 1 {
            assert X[t[k]][f] <= X[last][f];
          }
        }
        SortedSnoc(X, f, t, i);
      }
    }
  }

  /** A row at least as large as every row of an ordered `s` can follow it. */
  lemma SortedSnoc(X: seq<seq<real>>, f: int, s: seq<int>, j: int)
    requires HasCol(X, f) && ValidIdx(s, |X|) && 0 <= j < |X|
    requires Sorted(X, f, s)
    requires forall k :: 0 <= k < |s| ==> X[s[k]][f] <= X[j][f]
    ensures ValidIdx(s + [j], |X|) && Sorted(X, f, s + [j])
  {
    var r := s + [j];
    forall a, b | 0 <= a < b < |r| ensures X[r[a]][f] <= X[r[b]][f] {
      assert r[a] == s[a];
      if b < |s| {
        assert r[b] == s[b];
      }
    }
  }

  /** An upper bound on the rows and on the inserted row bounds the result. */
  lemma InsertBounded(X: seq<seq<real>>, f: int, t: seq<int>, i: int, v: real)
    requires HasCol(X, f) && ValidIdx(t, |X|) && 0 <= i < |X|
    requires forall k :: 0 <= k < |t| ==> X[t[k]][f] <= v
    requires X[i][f] <= v
    ensures forall k :: 0 <= k < |Insert(X, f, t, i)| ==> X[Insert(X, f, t, i)[k]][f] <= v
  {
    var r := Insert(X, f, t, i);
    forall k | 0 <= k < |r| ensures X[r[k]][f] <= v {
      var y := r[k];
      assert y in multiset(r);
      if y != i {
        assert y in multiset(t);
        var a :| 0 <= a < |t| && t[a] == y;
      }
    }
  }

  /** The rows `idx` ordered by feature `f` (a stable insertion sort). */
  function SortByFeature(X: seq<seq<real>>, f: int, idx: seq<int>): (r: seq<int>)
    requires HasCol(X, f) && ValidIdx(idx, |X|)
    ensures |r| == |idx| && ValidIdx(r, |X|)
    ensures multiset(r) == multiset(idx)
  {
    if |idx| == 0 then []
    else
      var idx' := idx[..|idx| - 1];
      assert idx == idx' + [idx[|idx| - 1]];
      var t := SortByFeature(X, f, idx');
      Insert(X, f, t, idx[|idx| - 1])
  }

  /** The sorted rows are in ascending order of feature f. */
  lemma {:induction false} SortByFeatureSorted(X: seq<seq<real>>, f: int, idx: seq<int>)
    requires HasCol(X, f) && ValidIdx(idx, |X|)
    ensures Sorted(X, f, SortByFeature(X, f, idx))
  {
    if |idx| > 0 {
      var idx' := idx[..|idx| - 1];
      SortByFeatureSorted(X, f, idx');
      InsertSorted(X, f, SortByFeature(X, f, idx'), idx[|idx| - 1]);
    }
  }

  // ---------------------------------------------------------------------------
  // Splits and candidate split points
  // ---------------------------------------------------------------------------

  /** bestSplit's tuple (bestFeat, bestThr, bestGain, bestLeftIdx, bestRightIdx). */
  datatype Split = Split(feat: int, thr: real, gain: real, left: seq<int>, right: seq<int>)

  /** The "no split" answer (-1, 0.0, 0.0, {}, {}). */
  const NoSplit := Split(-1, 0.0, 0.0, [], [])

  /** bestSplit's parent sums: only regression accumulates them. */
  function ParentSum(isClassification: bool, vals: seq<real>): real
  {
    if isClassification then 0.0 else Sum(vals)
  }

  function ParentSumSq(isClassification: bool, vals: seq<real>): real
  {
    if isClassification then 0.0 else SumSq(vals)
  }

  /** The impurity decrease bestSplit computes for a node with targets vP
      whose sorted rows are cut into a left part with targets vL and a right
      part with targets vR: the left sums are running sums, the right sums
      are the parent sums minus them. */
  ghost function SplitGain(isClassification: bool, vP: seq<real>, vL: seq<real>, vR: seq<real>): real
    requires |vP| > 0
  {
    var sumP := ParentSum(isClassification, vP);
    var sumP2 := ParentSumSq(isClassification, vP);
    Decrease(isClassification, |vP|, sumP, sumP2,
             |vL|, Sum(vL), SumSq(vL),
             |vP| - |vL|, sumP - Sum(vL), sumP2 - SumSq(vL),
             vP, vL, vR)
  }

  /** The impurity decrease of cutting the sorted rows after position s:
      the first s+1 rows go left, the rest right. */
  ghost function CandidateGain(isClassification: bool, Y: seq<real>, idx: seq<int>, rows: seq<int>, s: int): real
    requires ValidIdx(idx, |Y|) && ValidIdx(rows, |Y|) && |idx| > 0
    requires 0 <= s < |rows|
  {
    SplitGain(isClassification, Targets(Y, idx), Targets(Y, rows[..s + 1]), Targets(Y, rows[s + 1..]))
  }

  /** Position s of the sorted rows is a split point: a next row exists and
      its feature value differs. */
  predicate IsCandidate(X: seq<seq<real>>, f: int, rows: seq<int>, s: int)
    requires HasCol(X, f) && ValidIdx(rows, |X|)
  {
    0 <= s && s + 1 < |rows| && X[rows[s]][f] != X[rows[s + 1]][f]
  }

  /** The split placed at candidate position s of feature f. */
  function CandidateSplit(X: seq<seq<real>>, f: int, rows: seq<int>, s: int, gain: real): (sp: Split)
    requires HasCol(X, f) && ValidIdx(rows, |X|) && 0 <= s && s + 1 < |rows|
  {
    Split(f, 0.5 * (X[rows[s]][f] + X[rows[s + 1]][f]), gain, rows[..s + 1], rows[s + 1..])
  }

  /** What bestSplit promises of the split it returns: either no split, or a
      split on a real feature with positive gain whose two non-empty sides
      divide the node's rows by the threshold. */
  predicate SplitOk(X: seq<seq<real>>, p: int, idx: seq<int>, sp: Split)
    requires Wide(X, p)
  {
    sp == NoSplit ||
    (0 <= sp.feat < p && sp.gain > 0.0 && |sp.left| > 0 && |sp.right| > 0 &&
     multiset(sp.left) + multiset(sp.right) == multiset(idx) &&
     ValidIdx(sp.left, |X|) && ValidIdx(sp.right, |X|) &&
     (forall k :: 0 <= k < |sp.left| ==> X[sp.left[k]][sp.feat] <= sp.thr) &&
     (forall k :: 0 <= k < |sp.right| ==> X[sp.right[k]][sp.feat] > sp.thr))
  }

  /** A candidate whose gain beats a non-negative best is itself a valid split. */
  lemma CandidateOk(X: seq<seq<real>>, p: int, idx: seq<int>, f: int, rows: seq<int>, s: int, gain: real)
    requires Wide(X, p) && 0 <= f < p && ValidIdx(rows, |X|)
    requires multiset(rows) == multiset(idx) && Sorted(X, f, rows)
    requires IsCandidate(X, f, rows, s) && gain > 0.0
    ensures SplitOk(X, p, idx, CandidateSplit(X, f, rows, s, gain))
  {
    var sp := CandidateSplit(X, f, rows, s, gain);
    var xs, xn := X[rows[s]][f], X[rows[s + 1]][f];
    assert xs < xn;
    assert rows == sp.left + sp.right;
    assert multiset(rows) == multiset(sp.left) + multiset(sp.right);
    forall k | 0 <= k < |sp.left| ensures X[sp.left[k]][f] <= sp.thr {
      assert sp.left[k] == rows[k];
      if k < s { assert X[rows[k]][f] <= xs; }
    }
    forall k | 0 <= k < |sp.right| ensures X[sp.right[k]][f] > sp.thr {
      assert sp.right[k] == rows[s + 1 + k];
      if k > 0 { assert xn <= X[rows[s + 1 + k]][f]; }
    }
  }

  /** The split-point sweep over the sorted rows of one feature, from
      position s on: equal neighbours are skipped, and a candidate replaces
      the current best only when its gain is strictly larger. */
  ghost function SweepFrom(isClassification: bool, X: seq<seq<real>>, Y: seq<real>, idx: seq<int>,
                           f: int, rows: seq<int>, s: nat, best: Split): Split
    requires |X| == |Y| && HasCol(X, f) && ValidIdx(idx, |X|) && ValidIdx(rows, |X|) && |idx| > 0
    decreases |rows| - s
  {
    if s + 1 >= |rows| then best
    else if X[rows[s]][f] == X[rows[s + 1]][f] then SweepFrom(isClassification, X, Y, idx, f, rows, s + 1, best)
    else
      var gain := CandidateGain(isClassification, Y, idx, rows, s);
      if gain > best.gain then
        SweepFrom(isClassification, X, Y, idx, f, rows, s + 1, CandidateSplit(X, f, rows, s, gain))
      else SweepFrom(isClassification, X, Y, idx, f, rows, s + 1, best)
  }

  /** The feature loop of bestSplit from feature f on. */
  ghost function ScanFeatures(isClassification: bool, X: seq<seq<real>>, Y: seq<real>, p: int, idx: seq<int>,
                              f: nat, best: Split): Split
    requires WellFormed(X, Y, p) && ValidIdx(idx, |X|) && |idx| > 0
    decreases p - f
  {
    if f >= p then best
    else ScanFeatures(isClassification, X, Y, p, idx, f + 1, SweepFeature(isClassification, X, Y, p, idx, f, best))
  }

  /** The sweep over the node's rows sorted by feature f. */
  ghost function SweepFeature(isClassification: bool, X: seq<seq<real>>, Y: seq<real>, p: int, idx: seq<int>,
                              f: nat, best: Split): Split
    requires WellFormed(X, Y, p) && ValidIdx(idx, |X|) && |idx| > 0 && f < p
  {
    SweepFrom(isClassification, X, Y, idx, f, SortByFeature(X, f, idx), 0, best)
  }

  /** bestSplit: no split for fewer than minSampleSplit rows (or none),
      otherwise the best candidate over all features and split points, or no
      split when no candidate has positive gain. */
  ghost function BestSplitSpec(isClassification: bool, minSampleSplit: int,
                               X: seq<seq<real>>, Y: seq<real>, p: int, idx: seq<int>): Split
    requires WellFormed(X, Y, p) && ValidIdx(idx, |X|)
  {
    if |idx| < minSampleSplit || |idx| == 0 then NoSplit
    else
      var r := ScanFeatures(isClassification, X, Y, p, idx, 0, NoSplit);
      if r.feat == -1 then NoSplit else r
  }

  // ---------------------------------------------------------------------------
  // Soundness: the returned split divides the rows by its threshold
  // ---------------------------------------------------------------------------

  lemma {:induction false} SweepSound(isClassification: bool, X: seq<seq<real>>, Y: seq<real>, p: int,
                                      idx: seq<int>, f: int, rows: seq<int>, s: nat, best: Split)
    requires WellFormed(X, Y, p) && 0 <= f < p && ValidIdx(idx, |X|) && |idx| > 0
    requires ValidIdx(rows, |X|) && multiset(rows) == multiset(idx) && Sorted(X, f, rows)
    requires SplitOk(X, p, idx, best) && best.gain >= 0.0
    ensures var r := SweepFrom(isClassification, X, Y, idx, f, rows, s, best);
      SplitOk(X, p, idx, r) && r.gain >= best.gain
    decreases |rows| - s
  {
    if s + 1 < |rows| {
      if X[rows[s]][f] == X[rows[s + 1]][f] {
        SweepSound(isClassification, X, Y, p, idx, f, rows, s + 1, best);
      } else {
        var gain := CandidateGain(isClassification, Y, idx, rows, s);
        if gain > best.gain {
          CandidateOk(X, p, idx, f, rows, s, gain);
          SweepSound(isClassification, X, Y, p, idx, f, rows, s + 1, CandidateSplit(X, f, rows, s, gain));
        } else {
          SweepSound(isClassification, X, Y, p, idx, f, rows, s + 1, best);
        }
      }
    }
  }

  /** The feature loop keeps every property of the best split that each
      feature's sweep keeps. */
  lemma {:induction false} ScanKeeps(isClassification: bool, X: seq<seq<real>>, Y: seq<real>, p: int,
                                     idx: seq<int>, f: nat, best: Split, ok: Split -> bool)
    requires WellFormed(X, Y, p) && ValidIdx(idx, |X|) && |idx| > 0
    requires forall g: nat, b: Split :: f <= g < p && ok(b) ==> ok(SweepFeature(isClassification, X, Y, p, idx, g, b))
    requires ok(best)
    ensures ok(ScanFeatures(isClassification, X, Y, p, idx, f, best))
    decreases p - f
  {
    if f < p {
      ScanKeeps(isClassification, X, Y, p, idx, f + 1, SweepFeature(isClassification, X, Y, p, idx, f, best), ok);
    }
  }

  /** The feature loop keeps a valid best split and never lowers its gain. */
  lemma ScanSound(isClassification: bool, X: seq<seq<real>>, Y: seq<real>, p: int,
                  idx: seq<int>, f: nat, best: Split)
    requires WellFormed(X, Y, p) && ValidIdx(idx, |X|) && |idx| > 0
    requires SplitOk(X, p, idx, best) && best.gain >= 0.0
    ensures SplitOk(X, p, idx, ScanFeatures(isClassification, X, Y, p, idx, f, best))
    ensures ScanFeatures(isClassification, X, Y, p, idx, f, best).gain >= best.gain
  {
    var ok := (b: Split) => SplitOk(X, p, idx, b) && b.gain >= best.gain;
    forall g: nat, b: Split | f <= g < p && ok(b)
      ensures ok(SweepFeature(isClassification, X, Y, p, idx, g, b))
    {
      SweepSortedSound(isClassification, X, Y, p, idx, g, b);
    }
    ScanKeeps(isClassification, X, Y, p, idx, f, best, ok);
  }

  /** One feature of the scan: sweeping the rows sorted by f keeps a valid best. */
  lemma SweepSortedSound(isClassification: bool, X: seq<seq<real>>, Y: seq<real>, p: int,
                         idx: seq<int>, f: nat, best: Split)
    requires WellFormed(X, Y, p) && ValidIdx(idx, |X|) && |idx| > 0 && f < p
    requires SplitOk(X, p, idx, best) && best.gain >= 0.0
    ensures SplitOk(X, p, idx, SweepFeature(isClassification, X, Y, p, idx, f, best))
    ensures SweepFeature(isClassification, X, Y, p, idx, f, best).gain >= best.gain
  {
    SortByFeatureSorted(X, f, idx);
    SweepSound(isClassification, X, Y, p, idx, f, SortByFeature(X, f, idx), 0, best);
  }

  /** bestSplit returns either no split, or a feature below p with positive
      gain whose non-empty sides L and R together hold exactly the node's
      rows, L at or below the threshold and R above it. */
  lemma BestSplitSound(isClassification: bool, minSampleSplit: int,
                       X: seq<seq<real>>, Y: seq<real>, p: int, idx: seq<int>)
    requires WellFormed(X, Y, p) && ValidIdx(idx, |X|)
    ensures SplitOk(X, p, idx, BestSplitSpec(isClassification, minSampleSplit, X, Y, p, idx))
  {
    if |idx| >= minSampleSplit && |idx| > 0 {
      ScanSound(isClassification, X, Y, p, idx, 0, NoSplit);
    }
  }

  /** The sides of a split are strictly smaller than the node. */
  lemma SplitShrinks(X: seq<seq<real>>, p: int, idx: seq<int>, sp: Split)
    requires Wide(X, p) && SplitOk(X, p, idx, sp) && sp.feat != -1
    ensures |sp.left| < |idx| && |sp.right| < |idx|
    ensures |sp.left| + |sp.right| == |idx|
  {
    assert |multiset(sp.left) + multiset(sp.right)| == |multiset(idx)|;
  }

  // ---------------------------------------------------------------------------
  // Optimality and the strict tie rule
  // ---------------------------------------------------------------------------

  lemma {:induction false} SweepOptimal(isClassification: bool, X: seq<seq<real>>, Y: seq<real>,
                                        idx: seq<int>, f: int, rows: seq<int>, s: nat, best: Split)
    requires |X| == |Y| && HasCol(X, f) && ValidIdx(idx, |X|) && ValidIdx(rows, |X|) && |idx| > 0
    ensures var r := SweepFrom(isClassification, X, Y, idx, f, rows, s, best);
      best.gain <= r.gain &&
      forall t :: s <= t && IsCandidate(X, f, rows, t) ==> CandidateGain(isClassification, Y, idx, rows, t) <= r.gain
    decreases |rows| - s
  {
    if s + 1 < |rows| {
      var next := if X[rows[s]][f] == X[rows[s + 1]][f] then best
        else
          var gain := CandidateGain(isClassification, Y, idx, rows, s);
          if gain > best.gain then CandidateSplit(X, f, rows, s, gain) else best;
      SweepOptimal(isClassification, X, Y, idx, f, rows, s + 1, next);
    }
  }

  /** A sweep in which no candidate beats the current best keeps it: only a
      strictly larger gain replaces the best. */
  lemma {:induction false} SweepKeepsBest(isClassification: bool, X: seq<seq<real>>, Y: seq<real>,
                                          idx: seq<int>, f: int, rows: seq<int>, s: nat, best: Split)
    requires |X| == |Y| && HasCol(X, f) && ValidIdx(idx, |X|) && ValidIdx(rows, |X|) && |idx| > 0
    requires forall t :: s <= t && IsCandidate(X, f, rows, t) ==> CandidateGain(isClassification, Y, idx, rows, t) <= best.gain
    ensures SweepFrom(isClassification, X, Y, idx, f, rows, s, best) == best
    decreases |rows| - s
  {
    if s + 1 < |rows| {
      SweepKeepsBest(isClassification, X, Y, idx, f, rows, s + 1, best);
    }
  }

  /** Candidate position t of feature g of the node `idx`. */
  predicate FeatureCandidate(X: seq<seq<real>>, p: int, idx: seq<int>, g: int, t: int)
    requires Wide(X, p) && ValidIdx(idx, |X|)
  {
    0 <= g < p && IsCandidate(X, g, SortByFeature(X, g, idx), t)
  }

  ghost function FeatureGain(isClassification: bool, X: seq<seq<real>>, Y: seq<real>, p: int, idx: seq<int>, g: int, t: int): real
    requires WellFormed(X, Y, p) && ValidIdx(idx, |X|) && |idx| > 0
    requires FeatureCandidate(X, p, idx, g, t)
  {
    CandidateGain(isClassification, Y, idx, SortByFeature(X, g, idx), t)
  }

  lemma {:induction false} ScanOptimal(isClassification: bool, X: seq<seq<real>>, Y: seq<real>, p: int,
                                       idx: seq<int>, f: nat, best: Split)
    requires WellFormed(X, Y, p) && ValidIdx(idx, |X|) && |idx| > 0
    ensures var r := ScanFeatures(isClassification, X, Y, p, idx, f, best);
      best.gain <= r.gain &&
      forall g, t :: f <= g && FeatureCandidate(X, p, idx, g, t) ==>
        FeatureGain(isClassification, X, Y, p, idx, g, t) <= r.gain
    decreases p - f
  {
    if f < p {
      var rows := SortByFeature(X, f, idx);
      var next := SweepFrom(isClassification, X, Y, idx, f, rows, 0, best);
      var r := ScanFeatures(isClassification, X, Y, p, idx, f, best);
      assert best.gain <= next.gain &&
        forall t :: 0 <= t && IsCandidate(X, f, rows, t) ==> CandidateGain(isClassification, Y, idx, rows, t) <= next.gain by {
        SweepOptimal(isClassification, X, Y, idx, f, rows, 0, best);
      }
      ScanOptimal(isClassification, X, Y, p, idx, f + 1, next);
      forall g, t | f <= g && FeatureCandidate(X, p, idx, g, t)
        ensures FeatureGain(isClassification, X, Y, p, idx, g, t) <= r.gain
      {
        if g == f {
          assert IsCandidate(X, f, rows, t);
        }
      }
    }
  }

  lemma {:induction false} ScanKeepsBest(isClassification: bool, X: seq<seq<real>>, Y: seq<real>, p: int,
                                         idx: seq<int>, f: nat, best: Split)
    requires WellFormed(X, Y, p) && ValidIdx(idx, |X|) && |idx| > 0
    requires forall g, t :: f <= g && FeatureCandidate(X, p, idx, g, t) ==>
      FeatureGain(isClassification, X, Y, p, idx, g, t) <= best.gain
    ensures ScanFeatures(isClassification, X, Y, p, idx, f, best) == best
    decreases p - f
  {
    if f < p {
      var rows := SortByFeature(X, f, idx);
      forall t | 0 <= t && IsCandidate(X, f, rows, t)
        ensures CandidateGain(isClassification, Y, idx, rows, t) <= best.gain
      {
        assert FeatureCandidate(X, p, idx, f, t);
      }
      SweepKeepsBest(isClassification, X, Y, idx, f, rows, 0, best);
      ScanKeepsBest(isClassification, X, Y, p, idx, f + 1, best);
    }
  }

  /** No candidate of any feature has a larger gain than the returned split. */
  lemma BestSplitOptimal(isClassification: bool, minSampleSplit: int,
                         X: seq<seq<real>>, Y: seq<real>, p: int, idx: seq<int>, g: int, t: int)
    requires WellFormed(X, Y, p) && ValidIdx(idx, |X|)
    requires |idx| >= minSampleSplit && |idx| > 0
    requires FeatureCandidate(X, p, idx, g, t)
    ensures FeatureGain(isClassification, X, Y, p, idx, g, t)
      <= BestSplitSpec(isClassification, minSampleSplit, X, Y, p, idx).gain
  {
    ScanOptimal(isClassification, X, Y, p, idx, 0, NoSplit);
    ScanSound(isClassification, X, Y, p, idx, 0, NoSplit);
  }

  /** With enough rows, bestSplit finds no split exactly when no candidate of
      any feature has positive gain. */
  lemma BestSplitNoneIff(isClassification: bool, minSampleSplit: int,
                         X: seq<seq<real>>, Y: seq<real>, p: int, idx: seq<int>)
    requires WellFormed(X, Y, p) && ValidIdx(idx, |X|)
    requires |idx| >= minSampleSplit && |idx| > 0
    ensures BestSplitSpec(isClassification, minSampleSplit, X, Y, p, idx).feat == -1 <==>
      forall g, t :: FeatureCandidate(X, p, idx, g, t) ==> FeatureGain(isClassification, X, Y, p, idx, g, t) <= 0.0
  {
    ScanOptimal(isClassification, X, Y, p, idx, 0, NoSplit);
    ScanSound(isClassification, X, Y, p, idx, 0, NoSplit);
    if forall g, t :: FeatureCandidate(X, p, idx, g, t) ==> FeatureGain(isClassification, X, Y, p, idx, g, t) <= 0.0 {
      ScanKeepsBest(isClassification, X, Y, p, idx, 0, NoSplit);
    }
  }

  /** Fewer rows than minSampleSplit (or none) give no split. */
  lemma BestSplitTooSmall(isClassification: bool, minSampleSplit: int,
                          X: seq<seq<real>>, Y: seq<real>, p: int, idx: seq<int>)
    requires WellFormed(X, Y, p) && ValidIdx(idx, |X|)
    requires |idx| < minSampleSplit || |idx| == 0
    ensures BestSplitSpec(isClassification, minSampleSplit, X, Y, p, idx) == NoSplit
  {
  }

  // ---------------------------------------------------------------------------
  // partitionByThreshold
  // ---------------------------------------------------------------------------

  /** partitionByThreshold: rows with x[f] <= thr go left, the others right,
      each side keeping the input order. */
  function Partition(X: seq<seq<real>>, f: int, thr: real, idx: seq<int>): (r: (seq<int>, seq<int>))
    requires HasCol(X, f) && ValidIdx(idx, |X|)
    ensures |r.0| + |r.1| == |idx|
    ensures ValidIdx(r.0, |X|) && ValidIdx(r.1, |X|)
    ensures forall k :: 0 <= k < |r.0| ==> X[r.0[k]][f] <= thr
    ensures forall k :: 0 <= k < |r.1| ==> X[r.1[k]][f] > thr
  {
    if |idx| == 0 then ([], [])
    else
      var i := idx[|idx| - 1];
      var rest := Partition(X, f, thr, idx[..|idx| - 1]);
      if X[i][f] <= thr then (rest.0 + [i], rest.1) else (rest.0, rest.1 + [i])
  }

  /** Each side of the partition holds every input row of its side, as many
      times as the input does. */
  lemma {:induction false} PartitionCount(X: seq<seq<real>>, f: int, thr: real, idx: seq<int>, v: int)
    requires HasCol(X, f) && ValidIdx(idx, |X|)
    ensures multiset(Partition(X, f, thr, idx).0)[v] == if 0 <= v < |X| && X[v][f] <= thr then multiset(idx)[v] else 0
    ensures multiset(Partition(X, f, thr, idx).1)[v] == if 0 <= v < |X| && X[v][f] > thr then multiset(idx)[v] else 0
  {
    if |idx| > 0 {
      var idx' := idx[..|idx| - 1];
      assert idx == idx' + [idx[|idx| - 1]];
      PartitionCount(X, f, thr, idx', v);
    }
  }

  /** Every row of `L` has a value at most thr: so do all its members. */
  lemma MemberAtMost(X: seq<seq<real>>, f: int, thr: real, L: seq<int>, v: int)
    requires HasCol(X, f) && ValidIdx(L, |X|)
    requires forall k :: 0 <= k < |L| ==> X[L[k]][f] <= thr
    requires v in multiset(L)
    ensures 0 <= v < |X| && X[v][f] <= thr
  {
    var k :| 0 <= k < |L| && L[k] == v;
  }

  lemma MemberAbove(X: seq<seq<real>>, f: int, thr: real, R: seq<int>, v: int)
    requires HasCol(X, f) && ValidIdx(R, |X|)
    requires forall k :: 0 <= k < |R| ==> X[R[k]][f] > thr
    requires v in multiset(R)
    ensures 0 <= v < |X| && X[v][f] > thr
  {
    var k :| 0 <= k < |R| && R[k] == v;
  }

  /** Two row sequences split by the same threshold are, as multisets, the
      partition of their union. */
  lemma PartitionOfSides(X: seq<seq<real>>, f: int, thr: real, idx: seq<int>, L: seq<int>, R: seq<int>)
    requires HasCol(X, f) && ValidIdx(idx, |X|) && ValidIdx(L, |X|) && ValidIdx(R, |X|)
    requires multiset(L) + multiset(R) == multiset(idx)
    requires forall k :: 0 <= k < |L| ==> X[L[k]][f] <= thr
    requires forall k :: 0 <= k < |R| ==> X[R[k]][f] > thr
    ensures multiset(Partition(X, f, thr, idx).0) == multiset(L)
    ensures multiset(Partition(X, f, thr, idx).1) == multiset(R)
  {
    var r := Partition(X, f, thr, idx);
    forall v ensures multiset(r.0)[v] == multiset(L)[v] && multiset(r.1)[v] == multiset(R)[v] {
      PartitionCount(X, f, thr, idx, v);
      if v in multiset(L) {
        MemberAtMost(X, f, thr, L, v);
        if v in multiset(R) {
          MemberAbove(X, f, thr, R, v);
          assert false;
        }
      } else if v in multiset(R) {
        MemberAbove(X, f, thr, R, v);
      }
    }
    assert multiset(r.0) == multiset(L);
    assert multiset(r.1) == multiset(R);
  }

  /** partitionByThreshold with the returned feature and threshold recovers
      the sides of bestSplit's split, up to order. */
  lemma PartitionMatchesBestSplit(isClassification: bool, minSampleSplit: int,
                                  X: seq<seq<real>>, Y: seq<real>, p: int, idx: seq<int>)
    requires WellFormed(X, Y, p) && ValidIdx(idx, |X|)
    requires BestSplitSpec(isClassification, minSampleSplit, X, Y, p, idx).feat != -1
    ensures var sp := BestSplitSpec(isClassification, minSampleSplit, X, Y, p, idx);
      HasCol(X, sp.feat) &&
      multiset(Partition(X, sp.feat, sp.thr, idx).0) == multiset(sp.left) &&
      multiset(Partition(X, sp.feat, sp.thr, idx).1) == multiset(sp.right)
  {
    var sp := BestSplitSpec(isClassification, minSampleSplit, X, Y, p, idx);
    assert SplitOk(X, p, idx, sp) by {
      BestSplitSound(isClassification, minSampleSplit, X, Y, p, idx);
    }
    SplitSides(X, p, idx, sp);
  }

  /** The sides of a valid split are the partition by its threshold. */
  lemma SplitSides(X: seq<seq<real>>, p: int, idx: seq<int>, sp: Split)
    requires Wide(X, p) && ValidIdx(idx, |X|) && SplitOk(X, p, idx, sp) && sp.feat != -1
    ensures HasCol(X, sp.feat)
    ensures multiset(Partition(X, sp.feat, sp.thr, idx).0) == multiset(sp.left)
    ensures multiset(Partition(X, sp.feat, sp.thr, idx).1) == multiset(sp.right)
  {
    PartitionOfSides(X, sp.feat, sp.thr, idx, sp.left, sp.right);
  }
}
