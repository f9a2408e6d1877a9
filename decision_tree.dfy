/** The decision tree classifier: the tree of threshold tests, its
    construction by recursive splitting, and prediction by walking from the
    root to a leaf. */
module DecisionTree {
  import opened Common
  import opened Preprocessing
  import opened Tally
  import opened Gini
  import opened Splitting

  /** A leaf predicts a class; an internal node sends a record left when
      its feature `featureIndex` is at most `threshold`, right otherwise. */
  datatype Node =
    | Leaf(target: nat)
    | Internal(featureIndex: nat, threshold: real, left: Node, right: Node)

  /** Number of edges on the longest path from the node to a leaf. */
  function Height(node: Node): nat {
    match node
    case Leaf(_) => 0
    case Internal(_, _, l, r) => 1 + (if Height(l) < Height(r) then Height(r) else Height(l))
  }

  function LeafCount(node: Node): nat {
    match node
    case Leaf(_) => 1
    case Internal(_, _, l, r) => LeafCount(l) + LeafCount(r)
  }

  /** The classes of the leaves. */
  function Labels(node: Node): set<nat> {
    match node
    case Leaf(c) => {c}
    case Internal(_, _, l, r) => Labels(l) + Labels(r)
  }

  /** Every internal node tests a feature below `n`. */
  predicate TestsBelow(node: Node, n: nat) {
    match node
    case Leaf(_) => true
    case Internal(f, _, l, r) => f < n && TestsBelow(l, n) && TestsBelow(r, n)
  }

  predicate AllSameTarget(data: seq<ProcessedRecord>)
    requires data != []
  {
    forall i :: 0 <= i < |data| ==> data[i].target == data[0].target
  }

  /** `predict_from_node`: the class of the leaf reached by following the
      tests. A test of a feature the vector does not have would panic, so
      every test must be within the vector. */
  function PredictFromNode(node: Node, features: seq<real>): (c: nat)
    requires TestsBelow(node, |features|)
  {
    match node
    case Leaf(c) => c
    case Internal(f, t, l, r) =>
      if features[f] <= t then PredictFromNode(l, features) else PredictFromNode(r, features)
  }

  /** The prediction is the class of one of the leaves. */
  lemma {:induction false} PredictionIsLeafLabel(node: Node, features: seq<real>)
    requires TestsBelow(node, |features|)
    ensures PredictFromNode(node, features) in Labels(node)
  {
    match node
    case Leaf(_) =>
    case Internal(f, t, l, r) =>
      if features[f] <= t {
        PredictionIsLeafLabel(l, features);
      } else {
        PredictionIsLeafLabel(r, features);
      }
  }

  /** Splitting at the split `find_best_split` chose leaves fewer records
      on each side, each side keeping the widths of the records. */
  lemma ChosenSplitShrinks(data: seq<ProcessedRecord>)
    requires Rectangular(data) && BestSplit(data).Some?
    ensures var s := BestSplit(data).value;
            && s.feature < NumFeatures(data)
            && 0 < |Below(data, s.feature, s.threshold)| < |data|
            && 0 < |Above(data, s.feature, s.threshold)| < |data|
            && Rectangular(Below(data, s.feature, s.threshold))
            && Rectangular(Above(data, s.feature, s.threshold))
            && NumFeatures(Below(data, s.feature, s.threshold)) == NumFeatures(data)
            && NumFeatures(Above(data, s.feature, s.threshold)) == NumFeatures(data)
  {
    var s := BestSplit(data).value;
    BestSplitLaws(data);
    PartitionLaws(data, s.feature, s.threshold);
    SidesRectangular(data, s.feature, s.threshold);
  }

  /** `node` is a tree `build_tree` may return for `data` at `depth`: no
      records give a leaf of class 0; records of a single class give a leaf
      of that class; reaching the depth limit or holding fewer records than
      needed for a split, or finding no split, gives a leaf of a most
      common class (any one of them, since the tally is a hash map); and
      otherwise the node tests the best split and its subtrees are built
      from the two sides one level deeper. */
  ghost predicate TreeFor(data: seq<ProcessedRecord>, depth: nat, maxDepth: nat, minSamplesSplit: nat, node: Node)
    requires Rectangular(data)
    decreases |data|
  {
    if data == [] then node == Leaf(0)
    else if AllSameTarget(data) then node == Leaf(data[0].target)
    else if depth >= maxDepth || |data| < minSamplesSplit || BestSplit(data).None? then
      node.Leaf? && IsMostCommon(Targets(data), node.target)
    else
      var s := BestSplit(data).value;
      ChosenSplitShrinks(data);
      && node.Internal? && node.featureIndex == s.feature && node.threshold == s.threshold
      && TreeFor(Below(data, s.feature, s.threshold), depth + 1, maxDepth, minSamplesSplit, node.left)
      && TreeFor(Above(data, s.feature, s.threshold), depth + 1, maxDepth, minSamplesSplit, node.right)
  }

  /** No path of a tree built at `depth` reaches below `max_depth`. */
  lemma {:induction false} TreeHeight(data: seq<ProcessedRecord>, depth: nat, maxDepth: nat, minSamplesSplit: nat, node: Node)
    requires Rectangular(data) && TreeFor(data, depth, maxDepth, minSamplesSplit, node)
    ensures Height(node) <= if depth >= maxDepth then 0 else maxDepth - depth
    decreases |data|
  {
    if data != [] && !AllSameTarget(data) && !(depth >= maxDepth || |data| < minSamplesSplit || BestSplit(data).None?) {
      var s := BestSplit(data).value;
      ChosenSplitShrinks(data);
      TreeHeight(Below(data, s.feature, s.threshold), depth + 1, maxDepth, minSamplesSplit, node.left);
      TreeHeight(Above(data, s.feature, s.threshold), depth + 1, maxDepth, minSamplesSplit, node.right);
    }
  }

  /** The classes on either side of a split are classes of the records. */
  lemma SideTargets(data: seq<ProcessedRecord>, f: nat, t: real)
    ensures forall c :: c in Targets(Below(data, f, t)) ==> c in Targets(data)
    ensures forall c :: c in Targets(Above(data, f, t)) ==> c in Targets(data)
  {
    PartitionLaws(data, f, t);
    forall side, c | (side == Below(data, f, t) || side == Above(data, f, t)) && c in Targets(side)
      ensures c in Targets(data)
    {
      var k :| 0 <= k < |side| && Targets(side)[k] == c;
      assert side[k] in data;
      var m :| 0 <= m < |data| && data[m] == side[k];
      assert Targets(data)[m] == c;
    }
  }

  /** A tree has at most one leaf per record, and a single leaf for no
      records. */
  lemma {:induction false} TreeLeafCount(data: seq<ProcessedRecord>, depth: nat, maxDepth: nat, minSamplesSplit: nat, node: Node)
    requires Rectangular(data) && TreeFor(data, depth, maxDepth, minSamplesSplit, node)
    ensures LeafCount(node) <= if data == [] then 1 else |data|
    decreases |data|
  {
    if data != [] && !AllSameTarget(data) && !(depth >= maxDepth || |data| < minSamplesSplit || BestSplit(data).None?) {
      var s := BestSplit(data).value;
      ChosenSplitShrinks(data);
      PartitionLaws(data, s.feature, s.threshold);
      TreeLeafCount(Below(data, s.feature, s.threshold), depth + 1, maxDepth, minSamplesSplit, node.left);
      TreeLeafCount(Above(data, s.feature, s.threshold), depth + 1, maxDepth, minSamplesSplit, node.right);
    }
  }

  /** Every leaf of a tree built from records predicts a class occurring in
      them. */
  lemma {:induction false} TreeLabels(data: seq<ProcessedRecord>, depth: nat, maxDepth: nat, minSamplesSplit: nat, node: Node)
    requires Rectangular(data) && data != [] && TreeFor(data, depth, maxDepth, minSamplesSplit, node)
    ensures forall c :: c in Labels(node) ==> c in Targets(data)
    decreases |data|
  {
    if AllSameTarget(data) {
      assert data[0].target == Targets(data)[0];
    } else if !(depth >= maxDepth || |data| < minSamplesSplit || BestSplit(data).None?) {
      var s := BestSplit(data).value;
      ChosenSplitShrinks(data);
      SideTargets(data, s.feature, s.threshold);
      TreeLabels(Below(data, s.feature, s.threshold), depth + 1, maxDepth, minSamplesSplit, node.left);
      TreeLabels(Above(data, s.feature, s.threshold), depth + 1, maxDepth, minSamplesSplit, node.right);
    }
  }

  /** Every test of a tree is of a feature the records have. */
  lemma {:induction false} TreeTests(data: seq<ProcessedRecord>, depth: nat, maxDepth: nat, minSamplesSplit: nat, node: Node)
    requires Rectangular(data) && TreeFor(data, depth, maxDepth, minSamplesSplit, node)
    ensures TestsBelow(node, NumFeatures(data))
    decreases |data|
  {
    if data != [] && !AllSameTarget(data) && !(depth >= maxDepth || |data| < minSamplesSplit || BestSplit(data).None?) {
      var s := BestSplit(data).value;
      ChosenSplitShrinks(data);
      TreeTests(Below(data, s.feature, s.threshold), depth + 1, maxDepth, minSamplesSplit, node.left);
      TreeTests(Above(data, s.feature, s.threshold), depth + 1, maxDepth, minSamplesSplit, node.right);
    }
  }

  /** `DecisionTree`: the tree (absent until trained) and the two limits
      that stop the splitting. */
  class DecisionTree {
    var root: Option<Node>
    const maxDepth: nat
    const minSamplesSplit: nat

    /** `DecisionTree::new`: no tree yet. */
    constructor(maxDepth: nat, minSamplesSplit: nat)
      ensures root == None
      ensures this.maxDepth == maxDepth && this.minSamplesSplit == minSamplesSplit
    {
      root := None;
      this.maxDepth := maxDepth;
      this.minSamplesSplit := minSamplesSplit;
    }

    /** `most_common_class`: a class of maximal count, 0 for no records. */
    method MostCommonClass(data: seq<ProcessedRecord>) returns (c: nat)
      ensures IsMostCommon(Targets(data), c)
    {
      c := MostCommon(Targets(data));
    }

    /** `build_tree`: stop with a leaf when there are no records, when they
        all have one class, at the depth limit, below the minimum number of
        records, or when no split exists; otherwise split at the best split
        and build both subtrees one level deeper. */
    method BuildTree(data: seq<ProcessedRecord>, depth: nat) returns (node: Node)
      requires Rectangular(data)
      ensures TreeFor(data, depth, maxDepth, minSamplesSplit, node)
      decreases |data|
    {
      if data == [] {
        return Leaf(0);
      }
      if AllSameTarget(data) {
        return Leaf(data[0].target);
      }
      if depth >= maxDepth || |data| < minSamplesSplit {
        var c := MostCommonClass(data);
        return Leaf(c);
      }
      var best := FindBestSplit(data);
      match best
      case Some(s) =>
        ChosenSplitShrinks(data);
        RectangularHasFeatures(data, s.feature + 1);
        var leftData, rightData := SplitData(data, s.feature, s.threshold);
        var leftNode := BuildTree(leftData, depth + 1);
        var rightNode := BuildTree(rightData, depth + 1);
        node := Internal(s.feature, s.threshold, leftNode, rightNode);
      case None =>
        var c := MostCommonClass(data);
        node := Leaf(c);
    }

    /** `train`: build the tree from the records, or keep the current one
        when there are none. */
    method Train(trainingData: seq<ProcessedRecord>)
      requires Rectangular(trainingData)
      modifies this
      ensures trainingData == [] ==> root == old(root)
      ensures trainingData != [] ==> root.Some? && TreeFor(trainingData, 0, maxDepth, minSamplesSplit, root.value)
    {
      if trainingData != [] {
        var node := BuildTree(trainingData, 0);
        root := Some(node);
      }
    }

    /** The trained tree only tests features below `n`. */
    ghost predicate TestsWithin(n: nat)
      reads this
    {
      root.Some? ==> TestsBelow(root.value, n)
    }

    /** `predict`: the class of the leaf the record reaches, or 0 when no
        tree has been built. */
    function Predict(record: ProcessedRecord): (c: nat)
      reads this
      requires TestsWithin(|record.features|)
      ensures root.None? ==> c == 0
      ensures root.Some? ==> c in Labels(root.value)
    {
      match root
      case None => 0
      case Some(node) =>
        PredictionIsLeafLabel(node, record.features);
        PredictFromNode(node, record.features)
    }
  }

  /** Records of a single class give a single leaf of that class, so the
      tree predicts that class for every feature vector. */
  lemma SingleClassTree(data: seq<ProcessedRecord>, depth: nat, maxDepth: nat, minSamplesSplit: nat, node: Node, features: seq<real>)
    requires Rectangular(data) && data != [] && AllSameTarget(data)
    requires TreeFor(data, depth, maxDepth, minSamplesSplit, node)
    ensures node == Leaf(data[0].target)
    ensures PredictFromNode(node, features) == data[0].target
  {
  }

  /** A tree trained on records predicts, for any record with as many
      features, one of the training classes, along a path at most
      `max_depth` tests long. */
  lemma TrainedPrediction(data: seq<ProcessedRecord>, maxDepth: nat, minSamplesSplit: nat, node: Node, features: seq<real>)
    requires Rectangular(data) && data != [] && TreeFor(data, 0, maxDepth, minSamplesSplit, node)
    requires |features| >= NumFeatures(data)
    ensures TestsBelow(node, |features|)
    ensures PredictFromNode(node, features) in Targets(data)
    ensures Height(node) <= maxDepth
  {
    TreeLabels(data, 0, maxDepth, minSamplesSplit, node);
    TreeTests(data, 0, maxDepth, minSamplesSplit, node);
    TreeHeight(data, 0, maxDepth, minSamplesSplit, node);
    TestsBelowMonotone(node, NumFeatures(data), |features|);
    PredictionIsLeafLabel(node, features);
  }

  lemma {:induction false} TestsBelowMonotone(node: Node, n: nat, m: nat)
    requires TestsBelow(node, n) && n <= m
    ensures TestsBelow(node, m)
  {
    match node
    case Leaf(_) =>
    case Internal(_, _, l, r) =>
      TestsBelowMonotone(l, n, m);
      TestsBelowMonotone(r, n, m);
  }
}
