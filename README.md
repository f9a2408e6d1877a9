# Heart-disease predictor: a verified model of its learners

The repository trains classifiers that predict heart disease from the
Cleveland patient table. Each cleaned record has thirteen numeric features
and a binary target. This project is a Dafny model of its model layer:

- **Preprocessing.** `clean_and_convert` turns one raw row into a labelled
  feature vector or rejects it. The load loop keeps the rows that
  `clean_and_convert` accepts. `train_test_split` drains a shuffled vector
  into a test part and a training part.
- **Decision tree.** The tree is built by recursive best-split search
  (weighted Gini impurity). `predict` walks from the root to a leaf.
- **k nearest neighbours.** The distances to every training record are
  sorted stably, the first `k` targets are taken, and their majority vote is
  returned.
- **Gaussian naive Bayes.** `train` records per-class feature means,
  variances and priors. `predict` is the arg-max of the per-class
  log-posteriors.
- **Voting ensemble.** `train` trains every member on the same records.
  `predict` returns a most common member vote.
- **Evaluation.** `calculate_metrics` counts the confusion matrix and
  derives accuracy, precision, recall and F1.

Modelling conventions:

- Labels (`u8`) are `nat` and `f32` values are `real`.
- An f32 result that can be NaN is a `Float` (`Real(v)` or `NaN`). This
  covers accuracy on empty test data, the variance of a one-record class and
  the posteriors that read it.
- Hash-map iteration order is unspecified. Loops over a map pick the next
  key with `:|`. Specifications then admit any of the answers the source
  can give: any label of maximal count (`Tally.IsMostCommon`), or any class
  of maximal posterior (`NaiveBayes.IsBestClass`).
- Code that works in place is modelled imperatively. The classes
  `DecisionTree`, `Knn` and `GaussianNB` have fields that their `Train`
  methods update. `TrainTestSplit` drains `RecordVec.items`.
  `VotingClassifier.Train` updates the member objects, not fields of its
  own, as `train` mutates the boxed models. Each loop of the source is
  a `while`/`for` loop that is proved against a functional specification.
  Expression-only code (`predict_from_node`, the split search's criteria,
  the metrics) is modelled with functions.

Some things come from outside the modelled code. They are parameters or
abstractions:

- the random shuffle is the permutation `shuffled`;
- `str::parse` is `parse: string -> Option<real>`;
- CSV decoding is a sequence of `Row`s;
- the Gaussian log-density and `ln` of the prior are `GaussianNB`'s
  `logLikelihood` and `logPrior`;
- the model evaluated by `calculate_metrics` is `predict: ProcessedRecord -> nat`.

In one place the code and its own comment disagree. The comment in
`ensemble.rs` says a tie goes to the first model's vote. The code picks the
maximum from a `HashMap`, so a tie may go to any tied vote. The model
follows the code.

## Model

| member | source | states |
|---|---|---|
| Preprocessing.Trim | rust_heart_disease_predictor/src/preprocessing.rs:34-35 | the result is a slice of the input with only whitespace cut from either end and no whitespace at its ends |
| Preprocessing.CleanAndConvert | rust_heart_disease_predictor/src/preprocessing.rs:33-62 | `None` when trimmed `ca` or `thal` is "?" or fails to parse, and `Some` exactly otherwise; a result has 13 features, the eleven numeric columns in order followed by parsed `ca` and `thal`; target is 1 iff `num > 0`, else 0 |
| Preprocessing.TestCount | rust_heart_disease_predictor/src/preprocessing.rs:88 | the count is within one half of `len * test_size` (round half away from zero), and 0 for a negative product |
| Preprocessing.TestCountInRange | rust_heart_disease_predictor/src/preprocessing.rs:88-89 | with `0 <= test_size <= 1` the test count never exceeds the number of records |
| Preprocessing.TrainTestSplit | rust_heart_disease_predictor/src/preprocessing.rs:83-92 | after the shuffle, test is the first `test_count` records, train the rest, the vector is left empty, and train plus test is a permutation of the input |
| Loading.Load | rust_heart_disease_predictor/src/preprocessing.rs:73-80 | what the loop yields for the rows read: the accepted records in order, or the error of the first undecodable row; its laws are the Loading lemmas below |
| Loading.LoadStep | rust_heart_disease_predictor/src/preprocessing.rs:75-78 | one iteration: an earlier error stays, an undecodable row becomes the error, an accepted row's record is appended, a rejected row changes nothing |
| Loading.LoadRecords | rust_heart_disease_predictor/src/preprocessing.rs:73-80 | the loop's result equals the specification `Load` of the rows read |
| Loading.LoadErrorPersists | rust_heart_disease_predictor/src/preprocessing.rs:75 | after an undecodable row, later rows do not change the error |
| Loading.LoadSucceedsIffAllDecoded | rust_heart_disease_predictor/src/preprocessing.rs:74-80 | loading succeeds if and only if every row decodes |
| Loading.LoadFailsAtFirst | rust_heart_disease_predictor/src/preprocessing.rs:75 | a failed load reports the first undecodable row |
| Loading.LoadKeepsAccepted | rust_heart_disease_predictor/src/preprocessing.rs:76-78 | a successful load's records are exactly `Kept`, the accepted rows' records in input order and once per accepted row; hence every accepted record and nothing else, and no more records than rows |
| Loading.Kept | rust_heart_disease_predictor/src/preprocessing.rs:76-78 | the filter read from the front: each decoded row that `clean_and_convert` accepts contributes its record, in input order |
| Loading.KeptSnoc | rust_heart_disease_predictor/src/preprocessing.rs:76-78 | one more row extends the filter by exactly that row's contribution |
| Loading.LoadedWellFormed | rust_heart_disease_predictor/src/preprocessing.rs:44-60 | every loaded record has 13 features and a target in {0, 1} |
| Tally.CountLabels | rust_heart_disease_predictor/src/models/decision_tree.rs:174-177 | the map's keys are the labels present, each mapped to its positive number of occurrences |
| Tally.MaxByCount | rust_heart_disease_predictor/src/models/decision_tree.rs:179-183 | `None` iff the map is empty; otherwise a key whose count no other key exceeds |
| Tally.MostCommon | rust_heart_disease_predictor/src/models/knn.rs:93-106 | the result is a label of maximal count, or 0 for no labels |
| Tally.NoClassesOnlyWhenEmpty | rust_heart_disease_predictor/src/models/knn.rs:105 | the count map is empty exactly when there are no labels, so the `unwrap_or(0)` fallback is only reached then |
| Tally.StrictMajorityWins | rust_heart_disease_predictor/src/models/knn.rs:101-104 | a label held by a strict majority is the only possible winner |
| Gini.GiniBounds | rust_heart_disease_predictor/src/models/decision_tree.rs:152-171 | Gini impurity of non-empty data lies in [0, 1 - 1/k] for k classes, so below 1 |
| Gini.GiniZeroIffPure | rust_heart_disease_predictor/src/models/decision_tree.rs:152-171 | impurity is 0 exactly when all records have one class |
| Gini.CalculateGini | rust_heart_disease_predictor/src/models/decision_tree.rs:152-171 | the per-class loop `1 - sum p^2` equals the pair-counting reference definition, 0 for no records |
| Gini.SplitGiniBetween | rust_heart_disease_predictor/src/models/decision_tree.rs:140-150 | the weighted impurity of a split lies between the two sides' impurities and in [0, 1) |
| Gini.CalculateSplitGini | rust_heart_disease_predictor/src/models/decision_tree.rs:140-150 | the method computes the size-weighted impurity `SplitGini` |
| Splitting.Below | rust_heart_disease_predictor/src/models/decision_tree.rs:129-131 | the records whose feature is at most the threshold, in input order, never more than the input |
| Splitting.Above | rust_heart_disease_predictor/src/models/decision_tree.rs:132-134 | the records whose feature is above the threshold, in input order, never more than the input |
| Splitting.SplitData | rust_heart_disease_predictor/src/models/decision_tree.rs:120-138 | the loop returns the records at or below the threshold and those above, each in input order |
| Splitting.PartitionLaws | rust_heart_disease_predictor/src/models/decision_tree.rs:129-135 | the two sides together are a permutation of the input; a record is on the left iff its feature is at most the threshold |
| Splitting.SidesRectangular | rust_heart_disease_predictor/src/models/decision_tree.rs:120-138 | both non-empty sides of a split of rectangular records are rectangular with the same number of features |
| Splitting.Column | rust_heart_disease_predictor/src/models/decision_tree.rs:92-95 | one value per record, in order: the record's feature `f` (also the `feature_values` column of naive_bayes.rs:36) |
| Splitting.SortedDistinct | rust_heart_disease_predictor/src/models/decision_tree.rs:96-97 | the column sorted and deduplicated, built by inserting each value in turn; its laws are SortedDistinctLaws |
| Splitting.SortedDistinctLaws | rust_heart_disease_predictor/src/models/decision_tree.rs:92-97 | sort plus dedup gives a strictly increasing sequence of exactly the column's values |
| Splitting.MidpointAt | rust_heart_disease_predictor/src/models/decision_tree.rs:99-100 | candidate `i` is the average of distinct values `i` and `i + 1` |
| Splitting.Midpoint | rust_heart_disease_predictor/src/models/decision_tree.rs:100 | the threshold read in the loop is candidate `i` of the midpoint sequence |
| Splitting.MidpointsIncreasing | rust_heart_disease_predictor/src/models/decision_tree.rs:99-100 | the midpoints of adjacent distinct values are strictly increasing |
| Splitting.ThresholdsIncreasing | rust_heart_disease_predictor/src/models/decision_tree.rs:92-100 | a feature's candidate thresholds are strictly increasing, so each is tried once |
| Splitting.ThresholdSeparates | rust_heart_disease_predictor/src/models/decision_tree.rs:99-106 | every candidate threshold leaves records on both sides, so the `continue` is never taken for one |
| Splitting.NoThresholdsIffConstant | rust_heart_disease_predictor/src/models/decision_tree.rs:92-99 | a feature has no candidate threshold exactly when all records agree on it |
| Splitting.TryThreshold | rust_heart_disease_predictor/src/models/decision_tree.rs:100-113 | one inner iteration moves the running best from the state after `i` thresholds to the state after `i + 1` |
| Splitting.SearchFeature | rust_heart_disease_predictor/src/models/decision_tree.rs:90-114 | one outer iteration moves the running best from the state before feature `f` to the state before `f + 1` |
| Splitting.FindBestSplit | rust_heart_disease_predictor/src/models/decision_tree.rs:81-118 | the nested loop with the running minimum from `f32::MAX` returns the specification `BestSplit` |
| Splitting.BestSplitLaws | rust_heart_disease_predictor/src/models/decision_tree.rs:81-118 | no split iff no candidate; a returned split is a candidate that separates the records and whose weighted impurity no candidate beats; earlier candidates are strictly worse (strict `<`) |
| Splitting.NoSplitIffConstant | rust_heart_disease_predictor/src/models/decision_tree.rs:63-78 | `find_best_split` finds nothing exactly when the records agree on every feature |
| DecisionTree.PredictFromNode | rust_heart_disease_predictor/src/models/decision_tree.rs:186-202 | follows `<=` to the left and `>` to the right until a leaf, and returns that leaf's class; PredictionIsLeafLabel states its contract |
| DecisionTree.PredictionIsLeafLabel | rust_heart_disease_predictor/src/models/decision_tree.rs:186-202 | walking the tests ends at one of the tree's leaf classes |
| DecisionTree.ChosenSplitShrinks | rust_heart_disease_predictor/src/models/decision_tree.rs:63-67 | the chosen split leaves both sides non-empty and smaller than the data, so recursion ends |
| DecisionTree.TreeHeight | rust_heart_disease_predictor/src/models/decision_tree.rs:58 | a tree built at `depth` is at most `max_depth - depth` deep |
| DecisionTree.TreeLeafCount | rust_heart_disease_predictor/src/models/decision_tree.rs:45-79 | a built tree has at most one leaf per record (one leaf for no records) |
| DecisionTree.TreeLabels | rust_heart_disease_predictor/src/models/decision_tree.rs:52-59 | every leaf class of a tree built from records is a target of those records |
| DecisionTree.TreeTests | rust_heart_disease_predictor/src/models/decision_tree.rs:86-90 | every test of a built tree reads a feature the records have |
| DecisionTree.DecisionTree.constructor | rust_heart_disease_predictor/src/models/decision_tree.rs:36-42 | a new tree has no root and the given depth and split limits |
| DecisionTree.DecisionTree.MostCommonClass | rust_heart_disease_predictor/src/models/decision_tree.rs:173-184 | a most common target, 0 for no records |
| DecisionTree.DecisionTree.BuildTree | rust_heart_disease_predictor/src/models/decision_tree.rs:45-79 | the result is a tree `TreeFor` accepts: leaf 0 for no records, the common class for a pure set, a most common class at the depth or size limit or with no split, else the best split with subtrees one level deeper |
| DecisionTree.DecisionTree.Train | rust_heart_disease_predictor/src/models/decision_tree.rs:21-25 | no records keep the old root; otherwise the root is a tree `build_tree` may give at depth 0 |
| DecisionTree.DecisionTree.Predict | rust_heart_disease_predictor/src/models/decision_tree.rs:27-32 | 0 without a tree; otherwise a class of one of its leaves |
| DecisionTree.TrainedPrediction | rust_heart_disease_predictor/src/models/decision_tree.rs:21-32 | after training on records, any vector with their features can be predicted, the prediction is one of their targets, and the tree is at most `max_depth` deep |
| DecisionTree.SingleClassTree | rust_heart_disease_predictor/src/models/decision_tree.rs:52-55 | records of one class give the single leaf of that class, so every vector is predicted as that class |
| NearestNeighbors.EuclideanDistance | rust_heart_disease_predictor/src/models/knn.rs:79-91 | the `f32::MAX` sentinel exactly for vectors of different lengths; otherwise a non-negative distance |
| NearestNeighbors.DistanceToSelf | rust_heart_disease_predictor/src/models/knn.rs:79-91 | a vector is at distance 0 from itself |
| NearestNeighbors.PairAt | rust_heart_disease_predictor/src/models/knn.rs:21-24 | pair `i` holds the distance to training record `i` and its target |
| NearestNeighbors.Insert | rust_heart_disease_predictor/src/models/knn.rs:27 | places a pair after every pair at most as far and before the first pair farther away; the result is one pair longer |
| NearestNeighbors.SortByDistance | rust_heart_disease_predictor/src/models/knn.rs:27 | the stable `sort_by` on distance as insertion sort, same length; SortSorted, SortPermutes and SortStable state its laws |
| NearestNeighbors.SortSorted | rust_heart_disease_predictor/src/models/knn.rs:27 | the sort orders the pairs by ascending distance |
| NearestNeighbors.SortPermutes | rust_heart_disease_predictor/src/models/knn.rs:27 | the sort is a permutation |
| NearestNeighbors.SortStable | rust_heart_disease_predictor/src/models/knn.rs:27 | the sort is stable: pairs at equal distance keep their input order |
| NearestNeighbors.RankedLaws | rust_heart_disease_predictor/src/models/knn.rs:19-27 | the ranked pairs are a sorted permutation of the (distance, target) pairs |
| NearestNeighbors.KNearest | rust_heart_disease_predictor/src/models/knn.rs:30-34 | `take(k)`: the targets of the first `min(k, n)` sorted pairs; NeighboursAreFirst states this pointwise |
| NearestNeighbors.NeighboursAreFirst | rust_heart_disease_predictor/src/models/knn.rs:30-34 | the neighbours are the targets of the first `min(k, n)` sorted pairs |
| NearestNeighbors.ChosenAndLeftOut | rust_heart_disease_predictor/src/models/knn.rs:27-34 | the `min(k, n)` chosen pairs and the left-out pairs together are exactly the (distance, target) pairs of the training records |
| NearestNeighbors.ChosenNoFarther | rust_heart_disease_predictor/src/models/knn.rs:27-34 | no chosen neighbour is farther than a record left out |
| NearestNeighbors.NeighbourFromData | rust_heart_disease_predictor/src/models/knn.rs:21-34 | every neighbour label is a training target |
| NearestNeighbors.VoteIsTrainingTarget | rust_heart_disease_predictor/src/models/knn.rs:14-38 | with training data and `k >= 1` the prediction is a training target |
| NearestNeighbors.Knn.constructor | rust_heart_disease_predictor/src/models/knn.rs:42-47 | a new classifier has no training data and the given `k` |
| NearestNeighbors.Knn.Train | rust_heart_disease_predictor/src/models/knn.rs:10-12 | the stored training data is a copy of the records |
| NearestNeighbors.Knn.MajorityVote | rust_heart_disease_predictor/src/models/knn.rs:93-106 | a neighbour label of maximal count, 0 for no neighbours |
| NearestNeighbors.Knn.Predict | rust_heart_disease_predictor/src/models/knn.rs:14-38 | 0 without training data; otherwise a most common label among the `k` nearest training records (stable order on ties) |
| NaiveBayes.OfClass | rust_heart_disease_predictor/src/models/naive_bayes.rs:21-27 | the records of class `c`, as many as `c` occurs among the targets, all of class `c` |
| NaiveBayes.SeparateByClass | rust_heart_disease_predictor/src/models/naive_bayes.rs:21-27 | the map's keys are the classes present, and each holds the records of its class in input order |
| NaiveBayes.Mean | rust_heart_disease_predictor/src/models/naive_bayes.rs:37-38 | the sum of the values over their number |
| NaiveBayes.Variance | rust_heart_disease_predictor/src/models/naive_bayes.rs:41-46 | the squared deviations from the mean over `n - 1`, plus 1e-9, NaN for one value; VarianceLaws states its laws |
| NaiveBayes.MeansAt | rust_heart_disease_predictor/src/models/naive_bayes.rs:36-39 | entry `i` of the class means is the mean of the class's feature `i` |
| NaiveBayes.VariancesAt | rust_heart_disease_predictor/src/models/naive_bayes.rs:41-46 | entry `i` of the class variances is the sample variance of feature `i` plus 1e-9 |
| NaiveBayes.VarianceLaws | rust_heart_disease_predictor/src/models/naive_bayes.rs:41-46 | one value gives NaN (0/0); two or more give sum of squares/(n-1) + 1e-9, a number at least 1e-9 |
| NaiveBayes.ClassVariances | rust_heart_disease_predictor/src/models/naive_bayes.rs:29-47 | a class with at least two records has variances of at least 1e-9; a one-record class has NaN variances |
| NaiveBayes.Summarize | rust_heart_disease_predictor/src/models/naive_bayes.rs:30-47 | a class's means and variances over the features of its first record, and its share of the records as prior |
| NaiveBayes.StatsFor | rust_heart_disease_predictor/src/models/naive_bayes.rs:29-48 | the summary of the records of class `c` |
| NaiveBayes.Prior | rust_heart_disease_predictor/src/models/naive_bayes.rs:33 | the share of the records whose target is `c` |
| NaiveBayes.StatsShape | rust_heart_disease_predictor/src/models/naive_bayes.rs:29-48 | a class's statistics have one mean and one variance per feature of its first record, and its prior is its share of the records, in (0, 1] |
| NaiveBayes.PriorsSumToOne | rust_heart_disease_predictor/src/models/naive_bayes.rs:29-33 | the classes `train` stores are exactly the classes present, and their priors sum to 1 |
| NaiveBayes.DistinctClasses | rust_heart_disease_predictor/src/models/naive_bayes.rs:21-29 | each class present is listed exactly once, each absent one never |
| NaiveBayes.SeparatedSummaries | rust_heart_disease_predictor/src/models/naive_bayes.rs:29-49 | each class's summary of its separated records is that class's specified statistics |
| NaiveBayes.SummarizeClass | rust_heart_disease_predictor/src/models/naive_bayes.rs:30-47 | the feature loop builds exactly the specified means, variances and prior |
| NaiveBayes.StrictlyBestIsPredicted | rust_heart_disease_predictor/src/models/naive_bayes.rs:69-72 | a class with a posterior strictly above all others is the prediction |
| NaiveBayes.GaussianNB.constructor | rust_heart_disease_predictor/src/models/naive_bayes.rs:79-83 | a new classifier has no class statistics |
| NaiveBayes.GaussianNB.PosteriorNaN | rust_heart_disease_predictor/src/models/naive_bayes.rs:57-67 | a class's posterior is NaN exactly when a variance it reads is NaN |
| NaiveBayes.GaussianNB.Train | rust_heart_disease_predictor/src/models/naive_bayes.rs:16-50 | no records leave the statistics unchanged; otherwise every present class gets freshly computed statistics and other classes keep their old entries |
| NaiveBayes.GaussianNB.StoreClasses | rust_heart_disease_predictor/src/models/naive_bayes.rs:29-49 | the class loop inserts the summary of every separated class and keeps the rest |
| NaiveBayes.GaussianNB.ClassPosterior | rust_heart_disease_predictor/src/models/naive_bayes.rs:57-67 | the posterior loop computes log prior plus each feature's log-likelihood |
| NaiveBayes.GaussianNB.Predict | rust_heart_disease_predictor/src/models/naive_bayes.rs:52-75 | a class whose posterior is a number no other class's exceeds, or 0 when every posterior is NaN or there are no classes |
| Ensemble.TrainMember | rust_heart_disease_predictor/src/ensemble.rs:17 | a member's `train` leaves it in the state that member's own contract describes |
| Ensemble.PredictMember | rust_heart_disease_predictor/src/ensemble.rs:24 | a member's vote is one its own `predict` may give |
| Ensemble.VotingClassifier.constructor | rust_heart_disease_predictor/src/ensemble.rs:9-11 | the ensemble holds the given members, in order; members that own distinct models make it valid for `train` |
| Ensemble.VotingClassifier.Train | rust_heart_disease_predictor/src/ensemble.rs:15-19 | every member goes from its old state to the one its own `train` on the same records gives; nothing outside the members changes |
| Ensemble.VotingClassifier.TrainEach | rust_heart_disease_predictor/src/ensemble.rs:16-18 | the loop brings every member from its state on entry to a trained state |
| Ensemble.VotingClassifier.Predict | rust_heart_disease_predictor/src/ensemble.rs:21-39 | there is a vote sequence, one vote per member in order, each a possible result of that member, of which the result is a most common vote (0 for none) |
| Ensemble.VotingClassifier.PredictEach | rust_heart_disease_predictor/src/ensemble.rs:22-25 | the loop collects one possible vote per member, in member order |
| Ensemble.VoteIsAMemberVote | rust_heart_disease_predictor/src/ensemble.rs:34-38 | with members the result is one of their votes; with none it is 0 |
| Ensemble.MajorityVoteWins | rust_heart_disease_predictor/src/ensemble.rs:27-37 | a vote held by a strict majority of members is the result |
| Ensemble.TwoOfThree | rust_heart_disease_predictor/src/ensemble.rs:27-37 | votes 1, 1, 0 give 1 |
| Evaluation.OutcomesAt | rust_heart_disease_predictor/src/evaluation.rs:18-20 | pair `i` is the prediction and the target of test record `i` |
| Evaluation.TallySnoc | rust_heart_disease_predictor/src/evaluation.rs:20-26 | one more record raises only its own counter by one, and no counter for an unlisted pair |
| Evaluation.TallyTotal | rust_heart_disease_predictor/src/evaluation.rs:20-26 | the counters add up to at most the number of records, and exactly that when all predictions and targets are 0 or 1 |
| Evaluation.Accuracy | rust_heart_disease_predictor/src/evaluation.rs:29 | (tp + tn) over the number of test records, NaN for none; AccuracyLaws states its laws |
| Evaluation.Share | rust_heart_disease_predictor/src/evaluation.rs:30-31 | `k / (k + others)` when the sum is positive, else 0: precision with `fp`, recall with `fn`; ShareLaws states its laws |
| Evaluation.F1 | rust_heart_disease_predictor/src/evaluation.rs:32 | the harmonic mean of precision and recall, 0 when both are 0; F1Laws states its laws |
| Evaluation.MetricsOf | rust_heart_disease_predictor/src/evaluation.rs:29-34 | accuracy, precision, recall and F1 of the counters, as `calculate_metrics` returns them |
| Evaluation.CalculateMetrics | rust_heart_disease_predictor/src/evaluation.rs:12-35 | the counters are the census of (prediction, target) pairs over the test records, and the metrics are derived from them |
| Evaluation.AccuracyLaws | rust_heart_disease_predictor/src/evaluation.rs:29 | accuracy is NaN exactly on empty test data; otherwise it is (tp + tn)/n, in [0, 1] |
| Evaluation.ShareLaws | rust_heart_disease_predictor/src/evaluation.rs:30-31 | precision and recall lie in [0, 1], are 0 exactly when tp = 0, are 1 exactly when tp > 0 and fp (resp. fn) = 0, and are tp/(tp + fp) (resp. tp/(tp + fn)) when that is defined |
| Evaluation.F1Laws | rust_heart_disease_predictor/src/evaluation.rs:32 | F1 lies between precision and recall, in [0, 1], and is 0 exactly when one of them is |
| Evaluation.MetricsInUnitRange | rust_heart_disease_predictor/src/evaluation.rs:29-32 | all four metrics lie in [0, 1], and F1 is 0 exactly when there is no true positive |
| Evaluation.F1FromCounts | rust_heart_disease_predictor/src/evaluation.rs:30-32 | with a true positive, F1 equals 2tp/(2tp + fp + fn) |
| Evaluation.OneOfEach | rust_heart_disease_predictor/src/evaluation.rs:18-34 | targets [1,0,1,0] predicted [1,0,0,1] give counters (1,1,1,1) and every metric 0.5 |
| Evaluation.AlwaysNegative | rust_heart_disease_predictor/src/evaluation.rs:18-27 | predicting 0 on n positive records gives tp = tn = fp = 0 and fn = n |
| Evaluation.OnlyMissesScoreZero | rust_heart_disease_predictor/src/evaluation.rs:29-32 | only false negatives make every metric 0 |
| Evaluation.AlwaysZeroOnPositives | rust_heart_disease_predictor/src/evaluation.rs:18-32 | a predictor that always answers 0 on all-positive test records yields exactly the misses, so the counters `calculate_metrics` returns are (0, 0, 0, n) and, for n > 0, every metric is 0 |

## Left out

- f32 arithmetic is modelled as exact reals. Rounding, overflow to infinity
  and f32 `sum` order are not modelled. 1e-9 is the exact real 10^-9.
- NaN is modelled only where 0/0 can arise: accuracy on empty test data, the
  variance of a one-record class, and posteriors that read such a variance.
  NaN feature values are not modelled, so the NaN panic of
  `partial_cmp().unwrap()` in the two sorts cannot arise.
- `calculate_likelihood`, `exp` and `ln` are not modelled. The Gaussian
  log-density plus 1e-10 and the log of the prior are abstract functions
  that `GaussianNB`'s constructor receives.
- NaiveBayes.GaussianNB.constructor: takes those two functions as
  parameters, whereas `GaussianNB::new` takes none.
- The square root in `euclidean_distance` is dropped. Neighbours are ordered
  by squared distance, which gives the same order. `f32::MAX` is an explicit
  `Sentinel` distance.
- Hash-map iteration order is not modelled. These results are specified up
  to any maximal choice: the majority votes, the most common class, the
  naive Bayes arg-max and the ensemble tally.
- File reading, the CSV reader and `str::parse` are outside the model. They
  appear as the `Row` sequence and the `parse` parameter.
- `thread_rng` and `shuffle` are outside the model. They appear as the
  `shuffled` permutation.
- The KNN `train` and `predict` appear twice in the source, once inherent
  and once in the `Model` trait, with the same bodies. They are modelled
  once.
- Ensemble members are the three modelled classifiers: the decision tree,
  KNN and naive Bayes. `Member` is a closed datatype over them. Logistic
  regression is outside the modelled core, so it cannot be a member, and an
  ensemble cannot be a member of another ensemble.
- Splitting.Feature: reads a missing feature as 0.0 so that the
  specification functions are total. The methods require every record to
  have the feature, where the source would panic on an out-of-range index.
- DecisionTree.DecisionTree.Predict: requires every test of the tree to
  read a feature the record has (`TestsWithin`). The source's
  `predict_from_node` would panic on an out-of-range index instead. Trained
  trees meet it for records of the trained width
  (DecisionTree.TrainedPrediction).
- DecisionTree.DecisionTree.Train: requires all records to have the same
  number of features. The source panics whenever a record is shorter than
  the first record of a subset that the recursion reaches, because
  `find_best_split` takes the feature count from that first record. Equal
  widths rule this out. Loaded records always have 13 features
  (Loading.LoadedWellFormed).
- NaiveBayes.GaussianNB.Predict: requires the record to have no more
  features than any class's statistics. The source panics otherwise.
- Evaluation.CalculateMetrics: the counters are unbounded. `u32` wrap-around
  beyond 2^32 - 1 test records is not modelled.
- Evaluation.CalculateMetrics: the evaluated model is a function, so
  `predict` called twice on one record returns the same vote. A hash-map
  tie in the model could make the real `predict` vary between calls.
- `print_comparison_table`, `main`, visualisation and logistic regression
  are console output or outside the modelled core.
