# TreeMachineLearningLibrary: a verified model of the tree learners

This project models the tree-learning core of the MLSuite library:
- the CART `DecisionTree`, stored as six index-aligned arrays;
- the bagged `RandomForest`;
- the gradient-boosted `XGBoostModel`;
- the in-memory side of `Dataset`;
- the helpers of `ClassicModelFactory`: path and type checks, `pickRandom`, the argument checks of `randomSearch`, its 5-fold split and best tracking, and the two `create*Model` methods;
- the metric code of the classification and regression benchmarks;
- the three builders.

Doubles are exact `real`s. A double that can be NaN or +infinity is a `Numeric.Ext` (`Fin(v) | Inf | NaN`), and exceptions are `Wrappers.Result` / `Wrappers.Outcome` values that carry the exception kind and message. The random generators are oracle parameters:
- bootstrap draws, one list of in-range row numbers per tree;
- XGBoost shuffles, one permutation of the rows per round;
- `randomSearch` picks, one in-range index per list.

`std::sqrt`, `std::exp`-based `sigmoid` and `std::log` are function parameters. Where the library promises nothing about them, nothing is assumed.

Modules follow the source files:
- `Numeric`, `Wrappers`: shared arithmetic, counting and result types.
- `Variance`, `Impurity`: `computeMSE`, `computeGini`, the leaf value and `impurityDecrease` as specification functions.
- `SplitSearch`: `bestSplit` and `partitionByThreshold` as specification functions, with their soundness and optimality.
- `TreeGrowth`: `buildTree` as the recursive function `Grow` on a `Tree` datatype, with its stopping rules, height bound and pure-node behaviour.
- `DecisionTreeModel`: the `DecisionTree` class over the six arrays. Its methods are proved against the specification functions, and the invariant `Enc` says the arrays encode the tree `Grow` builds. Every child slot is later than its parent, so the arena is acyclic.
- `Layout`: flatten and reshape of row-major tables.
- `RandomForestModel`, `XGBoost`: the two ensembles as classes holding `DecisionTree` objects.
- `DatasetStore`: the `Dataset` class.
- `Builders`, `ModelFactory`: the builder classes and `ClassicModelFactory`.
- `BenchmarkStrategy`, `ClassificationBenchmark`, `RegressionBenchmark`: the result record and the metrics.

## Model

| member | source | states |
|---|---|---|
| Numeric.Add | code/MLSuite/ClassicModelFactory.cpp:235-260 | IEEE addition of scores on [finite, +inf, NaN]: NaN iff an operand is NaN, finite iff both are, and then the real sum |
| Numeric.DivPos | code/MLSuite/ClassicModelFactory.cpp:260 | division of a score by a positive count keeps it finite iff it was finite, infinite iff it was infinite, and inverts multiplication |
| Numeric.Round | code/MLSuite/RandomForest.cpp:182 | std::round: the nearest integer, halves away from zero |
| Numeric.IntSqrt | code/MLSuite/RandomForest.cpp:68 | floor(sqrt(n)) as the integer r with r^2 <= n < (r+1)^2 |
| Numeric.Clamp | code/MLSuite/RandomForest.cpp:18-20 | clampInt, std::max(lo, std::min(x, hi)): x itself inside [lo, hi], hi at or above hi, lo at or below lo (and lo whenever hi <= lo), so a result in [lo, hi] whenever lo <= hi |
| Numeric.Ceil | code/MLSuite/XGBoostModel.cpp:94 | std::ceil: the least integer at or above x |
| Numeric.CountMapSnoc | code/MLSuite/DecisionTree.cpp:38-40 | `counts[y]++` on a std::map: one more element bumps exactly its own entry, inserting it at 1 |
| Numeric.CountMap | code/MLSuite/DecisionTree.cpp:38-40 | the label count table holds exactly the labels that occur |
| Numeric.CountBounds | code/MLSuite/DecisionTree.cpp:38-40 | a label's count is at most the number of rows, and positive exactly when the label occurs |
| Numeric.SortedReals | code/MLSuite/DecisionTree.cpp:43-46 | the iteration order of a std::map<double,int>: every key once, strictly ascending |
| Numeric.SortedInts | code/MLSuite/RandomForest.cpp:189-194 | the iteration order of a std::map<int,int>: every key once, strictly ascending |
| Numeric.SortedRealsIncreasing | code/MLSuite/DecisionTree.cpp:43-46 | the labels of a std::map<double,int> are visited in strictly ascending order |
| Numeric.SortedIntsIncreasing | code/MLSuite/RandomForest.cpp:189-194 | the labels of a std::map<int,int> are visited in strictly ascending order |
| Numeric.ScanMaxSpec | code/MLSuite/RandomForest.cpp:186-194 | the scan that replaces the best only on a strictly larger count returns the first key with the largest count, or the start value when no count beats the start |
| Numeric.SumPermutation | code/MLSuite/DecisionTree.cpp:140-147 | a sum does not depend on the order of its terms, so sums over sorted rows equal those over the node's rows |
| Numeric.SumAppend | code/MLSuite/DecisionTree.cpp:140-147 | the sum of two row lists laid end to end is the sum of their sums |
| Variance.MseNonneg | code/MLSuite/DecisionTree.cpp:28-33 | computeMSE of a node's own running sum and sum of squares is never negative |
| Variance.MseOfConstant | code/MLSuite/DecisionTree.cpp:28-33 | computeMSE of a node whose targets are all equal is 0 |
| Variance.SqDevExpand | code/MLSuite/DecisionTree.cpp:28-33 | the running-sum formula agrees with the textbook squared deviations: sum (v-m)^2 = q - 2ms + nm^2 |
| Variance.SpreadNonneg | code/MLSuite/DecisionTree.cpp:28-33 | n * (sum of squares) >= sum^2 for any n values |
| Impurity.GiniBounds | code/MLSuite/DecisionTree.cpp:35-48 | computeGini lies in [0, 1] |
| Impurity.GiniOfPure | code/MLSuite/DecisionTree.cpp:35-48 | a node whose labels are all equal has Gini impurity 0 |
| Impurity.SquaredSharesBound | code/MLSuite/DecisionTree.cpp:43-46 | the squared label shares add up to at most the squared total share |
| Impurity.CountTotalOfLabels | code/MLSuite/DecisionTree.cpp:38-40 | the counts of all distinct labels add up to the number of rows |
| Impurity.ModeIsSmallestMostFrequent | code/MLSuite/DecisionTree.cpp:99-111 | makeLeaf's classification value is a most frequent label, and every smaller label is strictly less frequent (ties go to the smallest label) |
| Impurity.LeafValueOfPure | code/MLSuite/DecisionTree.cpp:90-125 | the leaf value of rows whose targets are all c is c, for both the mode and the mean |
| SplitSearch.Targets | code/MLSuite/DecisionTree.cpp:140-147 | the targets of the rows idx, position by position |
| SplitSearch.TargetsPermutation | code/MLSuite/DecisionTree.cpp:161-164 | reordering the rows reorders their targets and nothing else |
| SplitSearch.SortByFeature | code/MLSuite/DecisionTree.cpp:161-164 | the node's rows ordered by feature f: a permutation of the rows, in ascending order of x[f] |
| SplitSearch.SortByFeatureSorted | code/MLSuite/DecisionTree.cpp:161-164 | after the sort, the rows are in ascending order of x[f] |
| SplitSearch.InsertSorted | code/MLSuite/DecisionTree.cpp:161-164 | inserting a row into rows sorted by feature f keeps them sorted |
| SplitSearch.CandidateOk | code/MLSuite/DecisionTree.cpp:179-207 | a cut between two distinct adjacent sorted values with positive gain is a valid split: the midpoint threshold puts the first part at or below it and the rest above it |
| SplitSearch.SweepSound | code/MLSuite/DecisionTree.cpp:171-208 | the split-point sweep keeps a valid best split and never lowers its gain |
| SplitSearch.ScanSound | code/MLSuite/DecisionTree.cpp:154-209 | the feature loop keeps a valid best split and never lowers its gain |
| SplitSearch.ScanKeeps | code/MLSuite/DecisionTree.cpp:154-209 | any property of the best split that every single-feature sweep keeps also holds after the whole feature loop |
| SplitSearch.BestSplitSound | code/MLSuite/DecisionTree.cpp:129-216 | bestSplit returns either no split (feature -1) or a feature below p with positive gain whose non-empty sides together hold exactly the node's rows, the left side at or below the threshold and the right side above it |
| SplitSearch.SplitShrinks | code/MLSuite/DecisionTree.cpp:237-249 | both sides of a split are strictly smaller than the node and together as large |
| SplitSearch.SweepOptimal | code/MLSuite/DecisionTree.cpp:171-208 | the sweep ends with a gain at least that of every candidate of the feature it visited |
| SplitSearch.SweepKeepsBest | code/MLSuite/DecisionTree.cpp:201-207 | only a strictly larger gain replaces the best: a sweep in which no candidate beats it keeps it |
| SplitSearch.ScanOptimal | code/MLSuite/DecisionTree.cpp:154-209 | the feature loop ends with a gain at least that of every candidate of every feature it visited |
| SplitSearch.ScanKeepsBest | code/MLSuite/DecisionTree.cpp:201-207 | a feature loop in which no candidate of a later feature beats the best keeps it |
| SplitSearch.BestSplitOptimal | code/MLSuite/DecisionTree.cpp:129-216 | no candidate of any feature has a larger gain than the split bestSplit returns |
| SplitSearch.BestSplitNoneIff | code/MLSuite/DecisionTree.cpp:198-215 | with enough rows, bestSplit finds no split exactly when no candidate of any feature has a positive gain |
| SplitSearch.BestSplitTooSmall | code/MLSuite/DecisionTree.cpp:134-137 | fewer rows than minSampleSplit, or none, give no split |
| SplitSearch.Partition | code/MLSuite/DecisionTree.cpp:73-87 | partitionByThreshold puts every row with x[f] <= thr left and every other row right, the two sides together as long as the input |
| SplitSearch.PartitionCount | code/MLSuite/DecisionTree.cpp:73-87 | each side holds every input row of its side as often as the input does, so left ++ right is a permutation of the input |
| SplitSearch.PartitionOfSides | code/MLSuite/DecisionTree.cpp:73-87 | two row lists divided by the threshold whose union is the input are, as multisets, its partition |
| SplitSearch.PartitionMatchesBestSplit | code/MLSuite/DecisionTree.cpp:237-240 | partitioning by bestSplit's feature and threshold recovers its two sides, up to order |
| SplitSearch.SplitSides | code/MLSuite/DecisionTree.cpp:237-240 | the sides of a valid split are, up to order, the partition by its feature and threshold |
| TreeGrowth.GrowStops | code/MLSuite/DecisionTree.cpp:224-227 | at the depth limit, or with fewer rows than minSampleSplit, buildTree makes the leaf of the node's rows |
| TreeGrowth.GrowNoSplit | code/MLSuite/DecisionTree.cpp:231-234 | past the first rule, buildTree makes a leaf when bestSplit finds no split or a gain <= 0 |
| TreeGrowth.GrowSplits | code/MLSuite/DecisionTree.cpp:237-249 | otherwise the tree is bestSplit's feature and threshold over the subtrees grown one level deeper on the two smaller sides |
| TreeGrowth.GrowNode | code/MLSuite/DecisionTree.cpp:237-249 | when bestSplit finds a split with positive gain, the tree is that split over the subtrees grown one level deeper on its two strictly smaller sides |
| TreeGrowth.GrowUnfold | code/MLSuite/DecisionTree.cpp:229-249 | past the first stopping rule buildTree goes on to its split step |
| TreeGrowth.GrowLeafIff | code/MLSuite/DecisionTree.cpp:218-250 | buildTree makes a leaf exactly when the depth limit is reached, the node is smaller than minSampleSplit or empty, or no candidate of any feature has a positive gain |
| TreeGrowth.GrowFeaturesBelow | code/MLSuite/DecisionTree.cpp:218-250 | every feature a node splits on is one of the p features of the table, so predict reads only within the fitted width |
| TreeGrowth.GrowHeight | code/MLSuite/DecisionTree.cpp:224-227 | no internal node sits at depth >= maxDepth: the tree grown from depth d is at most maxDepth - d high |
| TreeGrowth.GrowAtDepthLimit | code/MLSuite/DecisionTree.cpp:224-227 | from a depth at or past maxDepth the tree is the single leaf of the node's rows |
| TreeGrowth.GrowPure | code/MLSuite/DecisionTree.cpp:218-250 | a node whose targets all equal c becomes the leaf c: no split of it has a positive decrease |
| TreeGrowth.PureCandidateGain | code/MLSuite/DecisionTree.cpp:50-70 | every candidate split of a pure node has impurity decrease <= 0 |
| TreeGrowth.PureDecrease | code/MLSuite/DecisionTree.cpp:50-70 | when the parent and both sides hold only the value c, the impurity decrease is <= 0 for both Gini and variance |
| TreeGrowth.GrowSingle | code/MLSuite/DecisionTree.cpp:218-250 | a single row gives the leaf holding its target |
| TreeGrowth.SizeOdd | code/MLSuite/DecisionTree.cpp:16-26 | a tree has an odd number of nodes: each split adds two slots |
| DecisionTreeModel.EncFrame | code/MLSuite/DecisionTree.cpp:237-249 | writing slots outside an encoded subtree leaves that subtree's encoding intact |
| DecisionTreeModel.ReachAbove | code/MLSuite/DecisionTree.cpp:237-240 | the slots of a subtree encoded at k are k and later slots: children come after their parent, so the arena is acyclic |
| DecisionTreeModel.Iota | code/MLSuite/DecisionTree.cpp:268-273 | std::iota over n slots gives the rows 0 .. n-1 in order |
| DecisionTreeModel.Range | code/MLSuite/DecisionTree.cpp:268-273 | the row numbers 0 .. n-1 in order |
| DecisionTreeModel.RangeMultiplicity | code/MLSuite/RandomForest.cpp:129-131 | each of 0 .. n-1 occurs once in the range and nothing else occurs |
| DecisionTreeModel.CountTargets | code/MLSuite/DecisionTree.cpp:38-40 | the label count table of a loop of `counts[Y[i]]++` is the count of every label among the node's targets |
| DecisionTreeModel.ComputeGini | code/MLSuite/DecisionTree.cpp:35-48 | computeGini equals the Gini impurity of the targets of its rows, labels visited in ascending order |
| DecisionTreeModel.SumSquaredShares | code/MLSuite/DecisionTree.cpp:42-46 | the second loop of computeGini adds (count/n)^2 for every label, visiting the labels in ascending order |
| DecisionTreeModel.LeafMode | code/MLSuite/DecisionTree.cpp:99-111 | makeLeaf's classification loop computes the mode, ties going to the smallest label |
| DecisionTreeModel.ScanCounts | code/MLSuite/DecisionTree.cpp:103-110 | the count scan of makeLeaf starts from (Y[indices[0]], -1), visits the labels in ascending order, and takes a label only when its count is strictly larger |
| DecisionTreeModel.LeafMean | code/MLSuite/DecisionTree.cpp:113-117 | makeLeaf's regression loop computes the arithmetic mean of the rows' targets |
| DecisionTreeModel.LeafValueOf | code/MLSuite/DecisionTree.cpp:99-117 | makeLeaf's value for non-empty rows is the leaf value of their targets: the mode for classification, the mean for regression |
| DecisionTreeModel.PartitionByThreshold | code/MLSuite/DecisionTree.cpp:73-87 | the loop computes the specification Partition: rows with x[feat] <= thr, then the others, each in input order |
| DecisionTreeModel.GainMatches | code/MLSuite/DecisionTree.cpp:185-199 | the running sums bestSplit passes (right sums as parent minus left) give the impurity decrease of the cut after position s |
| DecisionTreeModel.SplitGainIs | code/MLSuite/DecisionTree.cpp:50-70 | impurityDecrease on the running sums equals the decrease of the parent and the two sides' target lists |
| DecisionTreeModel.NodeSlots | code/MLSuite/DecisionTree.cpp:237-244 | two fresh slots are appended and slot k becomes a split over them: the arena stays aligned and grows by 2 |
| DecisionTreeModel.AssembleNode | code/MLSuite/DecisionTree.cpp:237-249 | after the two newNode calls, the writes to slot k and the growth of both children, slot k encodes the whole node and every other old slot is unchanged |
| DecisionTreeModel.DecisionTree.constructor | code/MLSuite/DecisionTree.cpp:7-13 | an empty, unfitted tree with the given maxDepth, minSampleSplit and task |
| DecisionTreeModel.DecisionTree.ImpurityDecrease | code/MLSuite/DecisionTree.cpp:50-70 | 0 when either side is empty, otherwise the parent's impurity minus the size-weighted child impurities (Gini for classification, variance by running sums for regression) |
| DecisionTreeModel.DecisionTree.SweepSplits | code/MLSuite/DecisionTree.cpp:171-208 | the sweep loop computes the specification sweep: running left sums, equal neighbours skipped, a strictly larger gain taken |
| DecisionTreeModel.DecisionTree.BestSplit | code/MLSuite/DecisionTree.cpp:129-216 | bestSplit equals its specification BestSplitSpec, whose soundness and optimality the SplitSearch lemmas state |
| DecisionTreeModel.DecisionTree.ParentSums | code/MLSuite/DecisionTree.cpp:139-147 | the parent sums of bestSplit: for regression, the sum and the sum of squares of the targets at the node; for classification, both are 0 |
| DecisionTreeModel.DecisionTree.ScanAllFeatures | code/MLSuite/DecisionTree.cpp:149-209 | the feature loop of bestSplit starts from no split and equals the specification scan over features 0 .. nFeatures-1 |
| DecisionTreeModel.DecisionTree.NewNode | code/MLSuite/DecisionTree.cpp:16-26 | newNode appends feature -1, threshold 0, children -1, not leaf, value 0 to the six arrays, returns the old length and sets nNodes to the new one |
| DecisionTreeModel.DecisionTree.MakeLeaf | code/MLSuite/DecisionTree.cpp:90-125 | makeLeaf stores the leaf value (0 for no rows, the mode or the mean) and the leaf flag; on non-empty rows it also resets feature, threshold and children to -1, 0, -1, -1 |
| DecisionTreeModel.DecisionTree.BuildLeaf | code/MLSuite/DecisionTree.cpp:224-234 | the makeLeaf calls in buildTree: slot nodeIndex comes to encode the leaf holding the leaf value of its rows, and every other slot keeps the node it encoded |
| DecisionTreeModel.DecisionTree.SetSplit | code/MLSuite/DecisionTree.cpp:240-245 | buildTree writes the split on slot nodeIndex: feature bf, threshold thr, children lch and rch, not a leaf, value 0; every other slot is untouched |
| DecisionTreeModel.DecisionTree.BuildTree | code/MLSuite/DecisionTree.cpp:218-250 | buildTree stores the tree Grow builds at slot nodeIndex, its other nodes in fresh later slots, every other existing slot unchanged |
| DecisionTreeModel.DecisionTree.BuildChildren | code/MLSuite/DecisionTree.cpp:237-249 | the split case: two fresh child slots, the split written into the node, then both children grown |
| DecisionTreeModel.DecisionTree.Refit | code/MLSuite/DecisionTree.cpp:264-273 | the reset, the root at node 0 and the growth on all rows: the object is fitted, its arrays encode Grow of all rows from depth 0, and nNodes is that tree's size |
| DecisionTreeModel.DecisionTree.Fit | code/MLSuite/DecisionTree.cpp:252-275 | the corrected fit: it rejects an empty X or Y, a length mismatch and a zero-width first row, and every rejection leaves the object unchanged, unlike lines 259-262, which write nFeatures before the zero-width throw (FitAsWritten models that); otherwise the tree is valid and fitted, its model is Grow on all rows, and nFeatures is the first row's width |
| DecisionTreeModel.DecisionTree.Commit | code/MLSuite/DecisionTree.cpp:273-274 | once the arrays encode tree t from the root, setting isFitted leaves a valid fitted tree whose model is t and whose arrays are unchanged |
| DecisionTreeModel.DecisionTree.FitAsWritten | code/MLSuite/DecisionTree.cpp:259-262 | fit as written: a zero-width table is rejected after nFeatures was set to 0, the arena, fitted flag and model kept, so with a fitted model that splits, predict is no longer safe; a later successful fit makes the tree valid again |
| DecisionTreeModel.DecisionTree.Predict | code/MLSuite/DecisionTree.cpp:277-293 | predict rejects an unfitted tree (runtime_error) and a width other than nFeatures (invalid_argument); otherwise it answers the value of the leaf reached by going left iff x[f] <= thr |
| DecisionTreeModel.ZeroWidthBreaksPredictSafe | code/MLSuite/DecisionTree.cpp:259-262 | a model that splits tests some feature, so it is unsafe to predict with once nFeatures is 0 |
| DecisionTreeModel.TwoRowFitSplits | code/MLSuite/DecisionTree.cpp:252-275 | with maxDepth > 0 and minSampleSplit <= 2, the regression fit of the rows [0] and [1] with targets 0 and 1 is a split tree (the cut lowers the variance from 1/4 to 0), so a zero-width rejection after it leaves it unsafe to predict with |
| DecisionTreeModel.TwoRowCandidate | code/MLSuite/DecisionTree.cpp:154-199 | the rows [0] and [1] give one split candidate on feature 0, after the first sorted row, with impurity decrease 1/4 |
| DecisionTreeModel.ZeroWidthRefit | code/MLSuite/DecisionTree.cpp:252-262 | fit as written on [[0], [1]] with targets [0, 1] passes; fit on [[]] is then rejected yet leaves the tree fitted with nFeatures 0 and a root testing feature 0, so predict on an empty row would pass the width check and read x[0] |
| DecisionTreeModel.ZeroWidthRefitCorrected | code/MLSuite/DecisionTree.cpp:252-262 | the same two calls on the corrected fit: the second is rejected and the tree stays valid and fitted with nFeatures 1 |
| DecisionTreeModel.FitSingleRow | code/MLSuite/DecisionTree.cpp:252-293 | fitting a single row gives the one-leaf tree, which predicts that row's target for every input, whatever the hyperparameters |
| DecisionTreeModel.Sample | code/MLSuite/RandomForest.cpp:96-104 | the materialised sample: row k is row rows[k] of X |
| DecisionTreeModel.TreeModel | code/MLSuite/RandomForest.cpp:96-109 | the tree a forest member grows on its sampled rows tests only features of the table |
| DecisionTreeModel.FitModel | code/MLSuite/DecisionTree.cpp:252-275 | the tree fit grows on a width-p table tests only features below p |
| DecisionTreeModel.IdentitySample | code/MLSuite/RandomForest.cpp:91-94 | without bootstrap a tree sees exactly the training table, in order |
| DecisionTreeModel.SampleWellFormed | code/MLSuite/RandomForest.cpp:96-107 | a sample of a width-p table is a width-p table with one target per row |
| DecisionTreeModel.Materialize | code/MLSuite/RandomForest.cpp:96-104 | the copy loop builds exactly the sampled rows and their targets |
| DecisionTreeModel.PermutationOfRange | code/MLSuite/RandomForest.cpp:129-131 | a shuffle of 0 .. p-1 holds every feature of [0, p) exactly once |
| Layout.Reshape | code/MLSuite/Dataset.cpp:128-140 | consecutive chunks of c values, as many whole rows as fit, each row c wide |
| Layout.ReshapeLength | code/MLSuite/Dataset.cpp:131 | the reshaped table has floor(\|data\| / c) rows |
| Layout.ReshapeIndex | code/MLSuite/Dataset.cpp:136 | entry (i, j) of the reshaped table is data[i * c + j] |
| Layout.ReshapeRow | code/MLSuite/Dataset.cpp:133-137 | row i of the reshaped table is the slice data[i * c .. i * c + c] |
| Layout.ReshapeFlatten | code/MLSuite/Dataset.cpp:43-65 | reshaping a flattened rectangular table gives back its rows |
| Layout.FlattenReshape | code/MLSuite/Dataset.cpp:128-140 | flattening the reshaped table gives the data up to its last whole row: a trailing partial row is dropped |
| Layout.FlattenLength | code/MLSuite/Dataset.cpp:59-65 | a flattened table of width c has \|rows\| * c values |
| Layout.FlattenSnoc | code/MLSuite/Dataset.cpp:60-65 | laying out one more row appends its values |
| Layout.ReshapeRows | code/MLSuite/RandomForest.cpp:252-257 | the nested fill loop computes Reshape: row i, column j is x[i * c + j] |
| Layout.RowOf | code/MLSuite/RandomForest.cpp:283-287 | the per-row copy of the flat predict is row i of the reshaped input |
| RandomForestModel.ResolveMaxFeatures | code/MLSuite/RandomForest.cpp:66-72 | 0 becomes floor(sqrt(p)) kept within [1, p]; any other value is clamped to [1, p] |
| RandomForestModel.DrawRows | code/MLSuite/RandomForest.cpp:87-94 | each tree sees n rows in [0, n): its bootstrap draw or every row in order |
| RandomForestModel.NegativeDepthStumps | code/MLSuite/DecisionTree.cpp:224-227 | with a negative maxDepth every tree is the single leaf of its whole sample |
| RandomForestModel.SampleBootstrap | code/MLSuite/RandomForest.cpp:112-123 | sampleBootstrap answers nothing for n <= 0, otherwise the generator's n draws, each in [0, n) |
| RandomForestModel.SampleFeatures | code/MLSuite/RandomForest.cpp:125-135 | sampleFeatures answers nothing for p <= 0 or k <= 0, otherwise the first clampInt(k, 1, p) = min(k, p) entries of the shuffle of 0 .. p-1: that many distinct features in [0, p) |
| RandomForestModel.Outputs | code/MLSuite/RandomForest.cpp:170-174 | the per-tree loop answers one output per tree |
| RandomForestModel.OutputsAt | code/MLSuite/RandomForest.cpp:172-174 | output i is the prediction of tree i on x: the outputs come in tree order |
| RandomForestModel.RoundAll | code/MLSuite/RandomForest.cpp:182 | every tree output rounded to its label |
| RandomForestModel.VoteIsSmallestMostFrequent | code/MLSuite/RandomForest.cpp:179-195 | the majority vote is a most frequent rounded output, and every smaller label is strictly less frequent: ties go to the smallest label |
| RandomForestModel.ScanMaxOfVotes | code/MLSuite/RandomForest.cpp:186-194 | the vote scan, starting from (-1, -1) and taking the labels in ascending order, returns a label that occurs, has the largest count, and beats every smaller label strictly |
| RandomForestModel.UnanimousForest | code/MLSuite/RandomForest.cpp:168-196 | a forest whose trees all answer c predicts c, for the mean and for the vote |
| RandomForestModel.MeanOf | code/MLSuite/RandomForest.cpp:12-16 | meanOf is NaN for no values, otherwise the arithmetic mean |
| RandomForestModel.CountVotes | code/MLSuite/RandomForest.cpp:179-184 | the vote table holds the count of every rounded tree output |
| RandomForestModel.MajorityLabel | code/MLSuite/RandomForest.cpp:186-194 | the scan of the vote table in ascending label order from (-1, -1), moving on a strictly larger count |
| RandomForestModel.ArgMax | code/MLSuite/RandomForest.cpp:225-234 | the first position of the largest entry: no entry is larger, every earlier entry is strictly smaller |
| RandomForestModel.FlatTargets | code/MLSuite/RandomForest.cpp:216-250 | the decoded targets of the flat fit have one value per row whenever the decode succeeds |
| RandomForestModel.OneHotDecodes | code/MLSuite/RandomForest.cpp:220-237 | decoding one-hot targets of width > 1 gives back the labels |
| RandomForestModel.OneHotShape | code/MLSuite/RandomForest.cpp:220-237 | the flat one-hot targets have k > 1 entries per row, so the flat fit sees a clean multiple of the row count and reshapes them into the one-hot rows |
| RandomForestModel.OneHotRows | code/MLSuite/RandomForest.cpp:220-237 | a one-hot table of width k: row i has 1 in column labels[i] and 0 elsewhere |
| RandomForestModel.ArgMaxOneHot | code/MLSuite/RandomForest.cpp:225-234 | the arg-max of a one-hot row is the hot column |
| RandomForestModel.RowArgMax | code/MLSuite/RandomForest.cpp:225-234 | the arg-max loop from -infinity with strict `>` computes ArgMax of the row |
| RandomForestModel.CollapseOneHot | code/MLSuite/RandomForest.cpp:223-237 | row i of the one-hot target table becomes its arg-max column |
| RandomForestModel.DecodeTargets | code/MLSuite/RandomForest.cpp:216-250 | the decode loop computes FlatTargets: one target per row as given, a clean multiple of width > 1 collapsed by arg-max, anything else rejected with the source's two messages |
| RandomForestModel.RandomForest.constructor | code/MLSuite/RandomForest.cpp:23-34 | once both checks pass, an unfitted forest with no trees and the given seven settings |
| RandomForestModel.RandomForest.BuildTree | code/MLSuite/RandomForest.cpp:84-110 | a fresh fitted tree of the forest's settings whose model is the tree grown on the sampled rows |
| RandomForestModel.RandomForest.GrowTrees | code/MLSuite/RandomForest.cpp:77-79 | nEstimators valid fitted trees with the forest's depth, split and task settings on the training width p; the model of tree t is the tree fit grows on the sample of draw t |
| RandomForestModel.RandomForest.TreeOutputs | code/MLSuite/RandomForest.cpp:168-176 | every tree's output on x in tree order, or a rejection when x is not the width the trees were fitted on |
| RandomForestModel.RandomForest.Fit | code/MLSuite/RandomForest.cpp:44-82 | fit rejects an empty X or a size mismatch unchanged, then writes nFeatures before the zero-width and ragged-row checks; on success maxFeatures is resolved, the old trees are replaced by nEstimators new ones, tree t grown on draw t, and the forest is fitted |
| RandomForestModel.RandomForest.Predict | code/MLSuite/RandomForest.cpp:159-197 | predict rejects an unfitted forest (logic_error) and a wrong width (invalid_argument); it answers the mean of the trees' outputs for regression and the majority vote of their rounded outputs for classification |
| RandomForestModel.RandomForest.FitFlat | code/MLSuite/RandomForest.cpp:204-260 | the flat fit rejects empty inputs and a size that is not a multiple of the columns, decodes the targets, reshapes x[i * c + j] into rows and fits on them |
| RandomForestModel.RandomForest.PredictFlat | code/MLSuite/RandomForest.cpp:263-298 | the flat predict answers nothing for an empty input even when unfitted, then rejects an unfitted forest and a non-multiple size, and otherwise answers predict of every row in row order |
| RandomForestModel.RandomForest.PredictRows | code/MLSuite/RandomForest.cpp:279-297 | the row loop rejects a row width other than nFeatures and otherwise answers, for row i, predict of Reshape(x)[i], in row order |
| RandomForestModel.RandomForest.PredictAt | code/MLSuite/RandomForest.cpp:283-294 | one pass of the row loop: row i is copied out, its width is checked against nFeatures, and the answer is predict of that row |
| RandomForestModel.NewForest | code/MLSuite/RandomForest.cpp:23-42 | the constructor rejects nEstimators <= 0, then minSamplesSplit < 2, in that order; otherwise an unfitted forest with the given settings |
| XGBoost.Threshold | code/MLSuite/XGBoostModel.cpp:131-134 | the classification answer is 1 exactly when the score is >= 0 (sigmoid(score) >= 0.5) and 0 otherwise |
| XGBoost.ScoreSnoc | code/MLSuite/XGBoostModel.cpp:126-129 | one more tree adds learningRate times its output to the score |
| XGBoost.ScoreConstant | code/MLSuite/XGBoostModel.cpp:126-129 | trees that all answer c give the score bias + (number of trees) * lr * c |
| XGBoost.NextScores | code/MLSuite/XGBoostModel.cpp:112-115 | adding lr times the new tree's output to every row's score after the earlier trees gives its score after one more tree |
| XGBoost.SubsampleSize | code/MLSuite/XGBoostModel.cpp:94-95 | the subsample size clamp(ceil(ratio * n), 1, n) lies in [1, n] |
| XGBoost.SubsampleUnclamped | code/MLSuite/XGBoostModel.cpp:94-95 | for a ratio in (0, 1] the clamp never applies: exactly ceil(ratio * n) rows |
| XGBoost.SubsampleRowsDistinct | code/MLSuite/XGBoostModel.cpp:90-106 | the rows of a round are distinct rows of the table, as many as asked |
| XGBoost.ClampProb | code/MLSuite/XGBoostModel.cpp:68 | the clamped probability lies in [1e-6, 1 - 1e-6] and is unchanged when already inside |
| XGBoost.Positives | code/MLSuite/XGBoostModel.cpp:62-66 | the number of targets above 0.5, at most the number of rows |
| XGBoost.FirstResidualsCentred | code/MLSuite/XGBoostModel.cpp:70-86 | the regression bias is the mean target, so the first round's residuals sum to zero |
| XGBoost.SumShift | code/MLSuite/XGBoostModel.cpp:81-86 | subtracting c from every entry lowers the sum by c per entry |
| XGBoost.XGBoostModel.RoundTargets | code/MLSuite/XGBoostModel.cpp:81-88 | the residual of each row against its running prediction after the earlier trees |
| XGBoost.XGBoostModel.Rounds | code/MLSuite/XGBoostModel.cpp:80-116 | the models of the first t rounds, every tree testing only features of the table |
| XGBoost.XGBoostModel.RoundModel | code/MLSuite/XGBoostModel.cpp:90-110 | a round's tree is a regression tree of depth maxDepth and minSampleSplit 2, grown on the subsample with the residuals |
| XGBoost.XGBoostModel.TreesOkSnoc | code/MLSuite/XGBoostModel.cpp:108-110 | pushing a fitted round tree keeps trees and models aligned |
| XGBoost.XGBoostModel.TreesOkAt | code/MLSuite/XGBoostModel.cpp:126-129 | tree i of an aligned list is a fitted round tree whose model is models[i] |
| XGBoost.XGBoostModel.constructor | code/MLSuite/XGBoostModel.cpp:16-29 | once the four checks pass, an unfitted model with bias 0 and the given settings |
| XGBoost.XGBoostModel.ComputeBias | code/MLSuite/XGBoostModel.cpp:61-73 | the bias loop computes the initial bias: the mean target for regression, the log-odds of the clamped positive share for classification |
| XGBoost.XGBoostModel.ComputeResiduals | code/MLSuite/XGBoostModel.cpp:81-88 | each residual is y - pred for regression and y - sigmoid(pred) for classification |
| XGBoost.XGBoostModel.GrowRound | code/MLSuite/XGBoostModel.cpp:102-110 | a fresh fitted tree of depth maxDepth, minSampleSplit 2, regression, grown on the subsample and its residuals |
| XGBoost.XGBoostModel.UpdatePredictions | code/MLSuite/XGBoostModel.cpp:112-115 | every row's running prediction grows by learningRate times the new tree's output, over the full data |
| XGBoost.XGBoostModel.UpdateScores | code/MLSuite/XGBoostModel.cpp:112-115 | when the running predictions are the scores after the earlier trees, the update makes them the scores after one more tree |
| XGBoost.XGBoostModel.BoostRound | code/MLSuite/XGBoostModel.cpp:80-116 | one round grows the next tree of Rounds and keeps the running predictions equal to the scores |
| XGBoost.XGBoostModel.Boost | code/MLSuite/XGBoostModel.cpp:75-116 | the boosting loop grows nEstimators trees; its final running predictions are bias + sum of lr * tree(X[i]), the scores predict gives the training rows |
| XGBoost.XGBoostModel.Install | code/MLSuite/XGBoostModel.cpp:108-118 | the grown trees, their models, the bias and the width are stored and the model is fitted |
| XGBoost.XGBoostModel.Fit | code/MLSuite/XGBoostModel.cpp:48-119 | fit rejects empty or mismatched X and Y and an empty first row before any change; otherwise the bias is set, nEstimators rounds are grown and the model is fitted |
| XGBoost.XGBoostModel.Predict | code/MLSuite/XGBoostModel.cpp:121-137 | predict rejects an unfitted model (runtime_error); it answers bias + sum of lr * tree(x), thresholded for classification; a tree rejects a wrong width |
| XGBoost.XGBoostModel.FitFlat | code/MLSuite/XGBoostModel.cpp:139-172 | the flat fit rejects empty columns, then empty inputs, then a non-multiple size, then a target count other than one per row; otherwise it fits on the reshaped rows |
| XGBoost.XGBoostModel.PredictFlat | code/MLSuite/XGBoostModel.cpp:174-203 | the flat predict rejects an unfitted model even for an empty input, then answers nothing for an empty input, rejects a non-multiple size, and otherwise answers predict of every row in row order |
| XGBoost.NewXGBoost | code/MLSuite/XGBoostModel.cpp:16-46 | the constructor rejects subsampleRatio outside (0, 1], then nEstimators <= 0, then maxDepth <= 0, then learningRate <= 0, in that order |
| DatasetStore.NatToString | code/MLSuite/Dataset.cpp:54-56 | std::to_string of a column number: a non-empty string of decimal digits |
| DatasetStore.NatToStringInjective | code/MLSuite/Dataset.cpp:54-56 | distinct column numbers get distinct names |
| DatasetStore.DummyColumns | code/MLSuite/Dataset.cpp:54-56 | c names, column j named after the number j |
| DatasetStore.ParseNatToString | code/MLSuite/Dataset.cpp:54-56 | every column name reads back as the number it names |
| DatasetStore.DummyColumnsDistinct | code/MLSuite/Dataset.cpp:54-56 | the dummy names "0", "1", ... are pairwise distinct |
| DatasetStore.TableOfFeatures | code/MLSuite/Dataset.cpp:128-140 | the 2-D export of an in-memory feature table with at least one column gives back its rows |
| DatasetStore.TableOfTargets | code/MLSuite/Dataset.cpp:66-69 | a targets-only table exports every target as a one-value row |
| DatasetStore.Dataset.GetData | code/MLSuite/Dataset.cpp:111-113 | get_data answers the stored values |
| DatasetStore.Dataset.Init | code/MLSuite/Dataset.h:13-16 | a dataset holding exactly the given path, type, values and column names |
| DatasetStore.Dataset.GetPath | code/MLSuite/Dataset.cpp:115-117 | get_path answers the stored path |
| DatasetStore.Dataset.GetType | code/MLSuite/Dataset.cpp:119-121 | get_type answers the stored type |
| DatasetStore.Dataset.GetColumns | code/MLSuite/Dataset.cpp:123-125 | get_columns answers the stored column names |
| DatasetStore.Dataset.Export2D | code/MLSuite/Dataset.cpp:128-140 | nothing without columns, otherwise floor(\|data\| / c) rows of c values with out[i][j] = data[i * c + j] |
| DatasetStore.Dataset.Export1D | code/MLSuite/Dataset.cpp:142-148 | the 1-D export has the same length and the same values in order |
| DatasetStore.Dataset.SetData | code/MLSuite/Dataset.cpp:151-154 | set_data replaces exactly the values and the column names |
| DatasetStore.Dataset.SetPath | code/MLSuite/Dataset.cpp:156-158 | set_path replaces the path and nothing else |
| DatasetStore.Dataset.SetType | code/MLSuite/Dataset.cpp:160-162 | set_type replaces the type and nothing else |
| DatasetStore.NewFromFile | code/MLSuite/Dataset.cpp:27-41 | the file constructor rejects any type but train, test or val before reading; otherwise the table is what the read leaves (ReadInto): empty for an unreadable file, else the header names and the values |
| DatasetStore.NameColumns | code/MLSuite/Dataset.cpp:54-56 | the naming loop gives the names "0" .. "c-1" |
| DatasetStore.FlattenRows | code/MLSuite/Dataset.cpp:58-65 | the flatten loop lays rows of the first row's width end to end and rejects the first row of another width |
| DatasetStore.NewInMemory | code/MLSuite/Dataset.cpp:43-70 | feature rows give type in-memory, columns "0" .. "c-1" and the rows laid end to end, a ragged row rejected; no features but targets give the column "target" holding the targets; neither gives an empty table |
| Builders.DecisionTreeBuilder.constructor | code/MLSuite/DecisionTreeBuilder.cpp:4-5 | defaults maxDepth 10, minSamplesSplit 2, regression |
| Builders.DecisionTreeBuilder.SetMaxDepth | code/MLSuite/DecisionTreeBuilder.cpp:7-13 | a value <= 0 is rejected with the field unchanged; otherwise only maxDepth changes |
| Builders.DecisionTreeBuilder.SetMinSamplesSplit | code/MLSuite/DecisionTreeBuilder.cpp:15-21 | a value < 2 is rejected with the field unchanged; otherwise only minSamplesSplit changes |
| Builders.DecisionTreeBuilder.SetIsClassification | code/MLSuite/DecisionTreeBuilder.cpp:23-26 | only the flag changes |
| Builders.DecisionTreeBuilder.Build | code/MLSuite/DecisionTreeBuilder.cpp:28-30 | an empty, unfitted tree with the builder's three fields |
| Builders.RandomForestBuilder.constructor | code/MLSuite/RandomForestBuilder.cpp:3-10 | defaults 100 trees, maxDepth -1, minSamplesSplit 2, maxFeatures 0, bootstrap on, randomState 0, regression |
| Builders.RandomForestBuilder.SetEstimators | code/MLSuite/RandomForestBuilder.cpp:12-16 | stores its argument in nEstimators, every other field unchanged |
| Builders.RandomForestBuilder.SetMaxDepth | code/MLSuite/RandomForestBuilder.cpp:17-21 | stores its argument in maxDepth, every other field unchanged |
| Builders.RandomForestBuilder.SetMinSamplesSplit | code/MLSuite/RandomForestBuilder.cpp:22-26 | stores its argument in minSamplesSplit, every other field unchanged |
| Builders.RandomForestBuilder.SetMaxFeatures | code/MLSuite/RandomForestBuilder.cpp:27-31 | stores its argument in maxFeatures, every other field unchanged |
| Builders.RandomForestBuilder.SetBootstrap | code/MLSuite/RandomForestBuilder.cpp:32-36 | stores its argument in bootstrap, every other field unchanged |
| Builders.RandomForestBuilder.SetRandomState | code/MLSuite/RandomForestBuilder.cpp:37-41 | stores its argument in randomState, every other field unchanged |
| Builders.RandomForestBuilder.SetIsClassification | code/MLSuite/RandomForestBuilder.cpp:42-45 | stores its argument in isClassification, every other field unchanged |
| Builders.RandomForestBuilder.Build | code/MLSuite/RandomForestBuilder.cpp:47-49 | the forest constructor on all seven fields: a bad estimator count or minSamplesSplit is rejected here, otherwise the forest carries the builder's values |
| Builders.XGBoostBuilder.constructor | code/MLSuite/XGBoostBuilder.cpp:3-10 | defaults 100 trees, learning rate 0.1, depth 3, subsample 1.0, gamma 0, "L2", regression |
| Builders.XGBoostBuilder.SetNEstimators | code/MLSuite/XGBoostBuilder.cpp:12-16 | stores its argument in nEstimators, every other field unchanged |
| Builders.XGBoostBuilder.SetLearningRate | code/MLSuite/XGBoostBuilder.cpp:17-21 | stores its argument in learningRate, every other field unchanged |
| Builders.XGBoostBuilder.SetMaxDepth | code/MLSuite/XGBoostBuilder.cpp:22-26 | stores its argument in maxDepth, every other field unchanged |
| Builders.XGBoostBuilder.SetSubsampleRatio | code/MLSuite/XGBoostBuilder.cpp:27-31 | stores its argument in subsampleRatio, every other field unchanged |
| Builders.XGBoostBuilder.SetGamma | code/MLSuite/XGBoostBuilder.cpp:32-36 | stores its argument in gamma, every other field unchanged |
| Builders.XGBoostBuilder.SetRegularization | code/MLSuite/XGBoostBuilder.cpp:37-41 | stores its argument in regularization, every other field unchanged |
| Builders.XGBoostBuilder.SetIsClassification | code/MLSuite/XGBoostBuilder.cpp:42-45 | stores its argument in isClassification, every other field unchanged |
| Builders.XGBoostBuilder.Build | code/MLSuite/XGBoostBuilder.cpp:47-49 | the model constructor on all seven fields, its four checks in its order; otherwise the model's fields are the values that were set |
| Builders.DefaultDepthStumps | code/MLSuite/RandomForestBuilder.cpp:5 | under the builder's default maxDepth -1 every tree of the forest is the one leaf of its sample |
| ModelFactory.EnsurePathSet | code/MLSuite/ClassicModelFactory.cpp:19-23 | an empty path is rejected, naming what it is for; any other path passes |
| ModelFactory.EnsureTypeValid | code/MLSuite/ClassicModelFactory.cpp:15-29 | exactly train, test and val pass; another type is rejected, naming the split and the type |
| ModelFactory.PickRandom | code/MLSuite/ClassicModelFactory.cpp:32-39 | an empty list is rejected; otherwise the drawn element, which is an element of the list |
| ModelFactory.CheckSearch | code/MLSuite/ClassicModelFactory.cpp:142-152 | randomSearch rejects, in order, empty or mismatched X and y, a model type other than RandomForest or XGBoost, an empty list of lists, fewer than 3 (forest) or 6 (boosting) lists, then an empty list at the first pick; it passes exactly when none of these holds |
| ModelFactory.FoldBounds | code/MLSuite/ClassicModelFactory.cpp:235-240 | every fold's window [k * (n / 5), end) lies inside [0, n] |
| ModelFactory.SplitFold | code/MLSuite/ClassicModelFactory.cpp:235-247 | the split loop computes the fold's training and validation parts, each in position order |
| ModelFactory.FoldPartition | code/MLSuite/ClassicModelFactory.cpp:235-247 | a fold's two parts together hold each shuffled position exactly once |
| ModelFactory.FoldsCover | code/MLSuite/ClassicModelFactory.cpp:235-247 | the five validation windows, one after another, are the whole shuffled order: every row is validated in exactly one fold |
| ModelFactory.SmallDataLastFold | code/MLSuite/ClassicModelFactory.cpp:235-247 | with fewer than five rows the first four windows are empty, so the last fold trains on no rows |
| ModelFactory.SumScoresKind | code/MLSuite/ClassicModelFactory.cpp:252-260 | the summed fold scores are finite exactly when every score is, and NaN exactly when some score is |
| ModelFactory.AverageScore | code/MLSuite/ClassicModelFactory.cpp:252-260 | the fold scores summed from 0 and divided by the fold count 5 |
| ModelFactory.SelectBest | code/MLSuite/ClassicModelFactory.cpp:262-270 | strict `<` from +infinity: a best is found exactly when some score is finite, and it is the first smallest finite score |
| ModelFactory.FirstMinimumUnique | code/MLSuite/ClassicModelFactory.cpp:262-270 | the first smallest finite score is unique, so the best iteration is well defined |
| ModelFactory.Candidate | code/MLSuite/ClassicModelFactory.cpp:215-217 | one drawn value from each list the model type reads |
| ModelFactory.IterationScores | code/MLSuite/ClassicModelFactory.cpp:235-260 | one averaged score per iteration |
| ModelFactory.RandomSearch | code/MLSuite/ClassicModelFactory.cpp:134-392 | the argument checks' error, or else: no model when no iteration's score is finite, otherwise the candidate of the first iteration with the smallest finite score |
| ModelFactory.ClassicModelFactory.constructor | code/MLSuite/ClassicModelFactory.h:12 | the default factory: no paths, types train and test |
| ModelFactory.ClassicModelFactory.WithPaths | code/MLSuite/ClassicModelFactory.cpp:43-54 | the six-argument constructor stores its arguments unchecked |
| ModelFactory.ClassicModelFactory.SetTrainDataPaths | code/MLSuite/ClassicModelFactory.cpp:56-63 | an invalid type is rejected with nothing changed; otherwise exactly the three train fields are replaced |
| ModelFactory.ClassicModelFactory.SetTestDataPaths | code/MLSuite/ClassicModelFactory.cpp:65-72 | an invalid type is rejected with nothing changed; otherwise exactly the three test fields are replaced |
| ModelFactory.ClassicModelFactory.GetTrainFeaturesPath | code/MLSuite/ClassicModelFactory.cpp:76-78 | the stored train features path |
| ModelFactory.ClassicModelFactory.GetTrainTargetsPath | code/MLSuite/ClassicModelFactory.cpp:80-82 | the stored train targets path |
| ModelFactory.ClassicModelFactory.GetTrainType | code/MLSuite/ClassicModelFactory.cpp:84-86 | the stored train type |
| ModelFactory.ClassicModelFactory.GetTestFeaturesPath | code/MLSuite/ClassicModelFactory.cpp:88-90 | the stored test features path |
| ModelFactory.ClassicModelFactory.GetTestTargetsPath | code/MLSuite/ClassicModelFactory.cpp:92-94 | the stored test targets path |
| ModelFactory.ClassicModelFactory.GetTestType | code/MLSuite/ClassicModelFactory.cpp:96-98 | the stored test type |
| ModelFactory.ClassicModelFactory.LoadTrainFeatures | code/MLSuite/ClassicModelFactory.cpp:100-104 | an empty path is rejected, then an invalid train type, before anything is loaded; otherwise a fresh dataset of that path and type holding what the file read leaves (ReadInto: empty for an unreadable file, else the header names and values) |
| ModelFactory.ClassicModelFactory.LoadTrainTargets | code/MLSuite/ClassicModelFactory.cpp:106-110 | an empty path is rejected, then an invalid train type, before anything is loaded; otherwise a fresh dataset of that path and type holding what the file read leaves (ReadInto: empty for an unreadable file, else the header names and values) |
| ModelFactory.ClassicModelFactory.LoadTestFeatures | code/MLSuite/ClassicModelFactory.cpp:112-116 | an empty path is rejected, then an invalid test type, before anything is loaded; otherwise a fresh dataset of that path and type holding what the file read leaves (ReadInto: empty for an unreadable file, else the header names and values) |
| ModelFactory.ClassicModelFactory.LoadTestTargets | code/MLSuite/ClassicModelFactory.cpp:118-122 | an empty path is rejected, then an invalid test type, before anything is loaded; otherwise a fresh dataset of that path and type holding what the file read leaves (ReadInto: empty for an unreadable file, else the header names and values) |
| ModelFactory.Load | code/MLSuite/ClassicModelFactory.cpp:100-122 | the shared load step: an empty path is rejected, then an invalid type, otherwise a fresh dataset of that path and type holding what the file read leaves (ReadInto: empty for an unreadable file, else the header names and values) |
| ModelFactory.ClassicModelFactory.CreateRandomForestModel | code/MLSuite/ClassicModelFactory.cpp:405-415 | a forest with the given four settings and maxFeatures 0, bootstrap on, randomState 0; the constructor's checks surface as errors |
| ModelFactory.ClassicModelFactory.CreateXGBoostModel | code/MLSuite/ClassicModelFactory.cpp:418-428 | a boosted model with every argument, the constructor's four checks in order |
| BenchmarkStrategy.Unscored | code/MLSuite/BenchmarkStrategy.h:11-29 | a result with its descriptive fields set and every metric at its NaN default |
| ClassificationBenchmark.SafeDiv | code/MLSuite/ClassificationBenchmark.cpp:12-15 | NaN when the denominator is 0, otherwise the quotient |
| ClassificationBenchmark.Labels | code/MLSuite/ClassificationBenchmark.cpp:73-76 | std::round of every value, position by position |
| ClassificationBenchmark.RoundLabels | code/MLSuite/ClassificationBenchmark.cpp:73-76 | the rounding loop gives std::round of every target and prediction |
| ClassificationBenchmark.MatchesBounds | code/MLSuite/ClassificationBenchmark.cpp:36-46 | at most every position agrees, and all do exactly when the labellings are equal |
| ClassificationBenchmark.ComputeAccuracy | code/MLSuite/ClassificationBenchmark.cpp:36-46 | NaN for no labels, otherwise the agreeing fraction |
| ClassificationBenchmark.AccuracyRange | code/MLSuite/ClassificationBenchmark.cpp:36-46 | the accuracy of a non-empty labelling lies in [0, 1] and is 1 exactly when every label is right |
| ClassificationBenchmark.ComputeBinaryConfusion | code/MLSuite/ClassificationBenchmark.cpp:21-34 | the counting loop computes the four cells of the confusion matrix |
| ClassificationBenchmark.ConfusionTotals | code/MLSuite/ClassificationBenchmark.cpp:21-34 | each sample lands in exactly one cell: tp + fp + fn + tn = n, tp + fn = positive targets, tp + fp = positive predictions |
| ClassificationBenchmark.ConfusionMatches | code/MLSuite/ClassificationBenchmark.cpp:21-46 | with only two labels, tp + tn is the number of agreeing positions |
| ClassificationBenchmark.Precision | code/MLSuite/ClassificationBenchmark.cpp:82 | NaN exactly when there is no positive prediction, otherwise a ratio in [0, 1] |
| ClassificationBenchmark.Recall | code/MLSuite/ClassificationBenchmark.cpp:83 | NaN exactly when there is no positive target, otherwise a ratio in [0, 1] |
| ClassificationBenchmark.F1 | code/MLSuite/ClassificationBenchmark.cpp:84-87 | f1 is finite exactly when both ratios are and their sum is not 0 |
| ClassificationBenchmark.F1OfConfusion | code/MLSuite/ClassificationBenchmark.cpp:81-87 | f1 of the confusion counts is defined exactly when there is a true positive, and is then 2tp / (2tp + fp + fn) |
| ClassificationBenchmark.ErrorRate | code/MLSuite/ClassificationBenchmark.cpp:119-126 | NaN for no labels, otherwise in [0, 1], and 0 exactly when every label is right |
| ClassificationBenchmark.Evaluate | code/MLSuite/ClassificationBenchmark.cpp:106-127 | +infinity when the prediction count differs from the target count, otherwise one minus the accuracy of the rounded labels |
| ClassificationBenchmark.Execute | code/MLSuite/ClassificationBenchmark.cpp:50-104 | the descriptive fields always; on a size mismatch every metric stays NaN; otherwise accuracy, precision, recall and f1 of the rounded labels, positive class 1 |
| RegressionBenchmark.SquaredErrorZero | code/MLSuite/RegressionBenchmark.cpp:14-21 | the squared error is never negative and is zero exactly when the sequences are equal |
| RegressionBenchmark.MSEZero | code/MLSuite/RegressionBenchmark.cpp:14-21 | the MSE is never negative and is 0 exactly when every prediction is its target |
| RegressionBenchmark.CalculateMSE | code/MLSuite/RegressionBenchmark.cpp:14-21 | 0 for no targets, otherwise the mean squared difference |
| RegressionBenchmark.R2Bound | code/MLSuite/RegressionBenchmark.cpp:23-41 | R2 never exceeds 1, and on a non-empty input reaches it exactly for the perfect fit |
| RegressionBenchmark.R2OfMean | code/MLSuite/RegressionBenchmark.cpp:23-41 | predicting the mean scores 0 whenever the targets are not all equal |
| RegressionBenchmark.SumValues | code/MLSuite/RegressionBenchmark.cpp:27 | the accumulate of the targets is their sum |
| RegressionBenchmark.SumsOfSquares | code/MLSuite/RegressionBenchmark.cpp:30-34 | the loop computes the total sum of squares about the mean and the residual sum of squares |
| RegressionBenchmark.CalculateR2 | code/MLSuite/RegressionBenchmark.cpp:23-41 | 0 for no targets; with a zero total sum of squares 1 for a perfect fit and 0 otherwise; else 1 - SSres / SStot |
| RegressionBenchmark.Evaluate | code/MLSuite/RegressionBenchmark.cpp:88-100 | +infinity when the prediction count differs from the target count, otherwise the MSE |
| RegressionBenchmark.Execute | code/MLSuite/RegressionBenchmark.cpp:44-86 | task type regression and the target count always; on a size mismatch mse, rmse and r2 stay NaN; otherwise the MSE, its square root and R2 |

## Left out

- File I/O: `Dataset::read_csv` and the file branch of the path constructor are not modelled. `DatasetStore.NewFromFile` takes what reading leaves behind as the parameter `read`: no file (the error is only logged), or the header's names and the parsed values.
- Random generators: `std::mt19937`, `uniform_int_distribution` and `std::shuffle` are oracle parameters constrained to in-range indices or permutations. Their concrete sequences are not modelled. Neither is the seeding by `randomState`, by 42, or by `std::random_device`.
- Transcendental functions: `sigmoid`, `std::log` and `std::sqrt` are function parameters. `XGBoost.Threshold` uses the fact that sigmoid(s) >= 0.5 exactly when s >= 0.
- Float and double: all numbers are exact reals. The float-to-double and double-to-float casts of the flat entry points and the exports are the identity, and rounding error is not modelled.
- Linear and logistic regression and their builders: these rest on a matrix library and floating-point gradient descent.
- Timing, memory and console output in both `execute` methods: they become the parameters `fitMillis`, `predictMillis` and `memoryBytes`. `getName` becomes the parameter `modelName`.
- `IModel` dispatch in the benchmarks: the model's predictions are a parameter.
- Builder chaining: the builders' setters return `*this`, which the model does not return.
- `RandomForest::predictAllTrees` and `RandomForest::aggregateMean`: private, and never called by the library.
- `DecisionTree::sumY` and `sumY2`: never read.
- `getNNodes` and the `XGBoostModel` header getters and setters: one-line field accessors with nothing to prove.
- The dead `if (node < 0) break` in `DecisionTree::predict` (code/MLSuite/DecisionTree.cpp:290): under the arena invariant every internal node has two children, so the branch cannot be taken.
- The dead `rowCount != y_values.size()` check of the flat `XGBoostModel::fit` (code/MLSuite/XGBoostModel.cpp:169-171): it is reached only when that condition holds, so it always throws; the model folds it into one rejection.
- `std::sort` on feature values is not stable, and the order it gives equal values is unspecified. `SplitSearch.SortByFeature` fixes one order (stable insertion). The gains and chosen splits do not depend on it for distinct values, but with equal values the sides' internal order may differ from the library's.
- DecisionTreeModel.DecisionTree.Fit, DecisionTreeModel.DecisionTree.FitAsWritten: require every row to have the first row's width, which the library does not check (lines 259-262 look at X[0] only). A later, shorter row is accepted there and read out of bounds by bestSplit, which is undefined behaviour and not modelled.
- XGBoost.XGBoostModel.Fit: requires every row to have the first row's width, which the library does not check. A ragged table makes the library's tree fit read rows of other widths, and that is not modelled.
- ModelFactory.RandomSearch: does not model what happens inside one fold or the refit. The fold's build, fit and evaluate is the parameter `foldScores`, one score per iteration and fold. The `std::stoi`/`std::stof` parsing of the candidate strings, exceptions thrown by an inner fit and the refit of the chosen candidate on all data are not modelled. The method answers the chosen candidate's strings in place of the refitted model.
- `HyperparameterSearch::fitModel` and the `trainAndExecute` wiring: they only forward to a model behind the abstract `IModel` interface.

## Findings

| source | as written | input that shows it | evidently intended | confidence | as-written member | corrected member |
|---|---|---|---|---|---|---|
| code/MLSuite/DecisionTree.cpp:259-262 | `fit` stores the first row's width in `nFeatures` and only then rejects a width of 0, so the rejected call still changes the tree | a regression tree with maxDepth 10 and minSampleSplit 2 fits X = [[0], [1]], Y = [0, 1], splitting feature 0 at 0.5; it then fits X = [[]], Y = [0]. The second call throws but leaves `isFitted` true with `nFeatures == 0`, so predict([]) passes the width check and reads x[0] of an empty row (DecisionTreeModel.ZeroWidthRefit, DecisionTreeModel.TwoRowFitSplits) | a rejected fit leaves the object unchanged, as the size checks before it do | not executed | DecisionTreeModel.DecisionTree.FitAsWritten | DecisionTreeModel.DecisionTree.Fit |
