/** Splitting records on one feature at a threshold, and the search for the
    split of least weighted Gini impurity (`split_data` and
    `find_best_split` of the decision tree). */
module Splitting {
  import opened Common
  import opened Preprocessing
  import opened Gini

  /** `f32::MAX`, the initial "best" impurity of the search. */
  const F32Max: real := 340282346638528859811704183484516925440.0

  /** Every record has at least `n` features, so indices below `n` are safe. */
  predicate HasFeatures(data: seq<ProcessedRecord>, n: nat) {
    forall i :: 0 <= i < |data| ==> n <= |data[i].features|
  }

  /** Number of features of the first record, which `find_best_split` takes
      for the whole collection; 0 for no records. */
  function NumFeatures(data: seq<ProcessedRecord>): nat {
    if data == [] then 0 else |data[0].features|
  }

  /** All records have the same number of features. */
  predicate Rectangular(data: seq<ProcessedRecord>) {
    forall i :: 0 <= i < |data| ==> |data[i].features| == NumFeatures(data)
  }

  /** Feature `f` of record `r`. The reference functions below read a
      missing feature as 0.0; every method that indexes features requires
      them to exist, since the source would panic on a missing one. */
  function Feature(r: ProcessedRecord, f: nat): real {
    if f < |r.features| then r.features[f] else 0.0
  }

  /** The records whose feature `f` is at most `t`, in order. */
  function Below(data: seq<ProcessedRecord>, f: nat, t: real): (r: seq<ProcessedRecord>)
    ensures |r| <= |data|
  {
    if data == [] then []
    else
      var last := data[|data| - 1];
      Below(data[..|data| - 1], f, t) + (if Feature(last, f) <= t then [last] else [])
  }

  /** The records whose feature `f` exceeds `t`, in order. */
  function Above(data: seq<ProcessedRecord>, f: nat, t: real): (r: seq<ProcessedRecord>)
    ensures |r| <= |data|
  {
    if data == [] then []
    else
      var last := data[|data| - 1];
      Above(data[..|data| - 1], f, t) + (if Feature(last, f) <= t then [] else [last])
  }

  /** `split_data`: one pass over the records, pushing each onto the left or
      the right side. */
  method SplitData(data: seq<ProcessedRecord>, f: nat, t: real) returns (left: seq<ProcessedRecord>, right: seq<ProcessedRecord>)
    requires HasFeatures(data, f + 1)
    ensures left == Below(data, f, t) && right == Above(data, f, t)
  {
    left, right := [], [];
    for i := 0 to |data|
      invariant left == Below(data[..i], f, t) && right == Above(data[..i], f, t)
    {
      assert data[..i + 1][..i] == data[..i];
      if data[i].features[f] <= t {
        left := left + [data[i]];
      } else {
        right := right + [data[i]];
      }
    }
    assert data[..|data|] == data;
  }

  /** The two sides partition the records: every record goes to exactly one
      side, the left side holds the values at most `t` and the right side
      the others. */
  lemma {:induction false} PartitionLaws(data: seq<ProcessedRecord>, f: nat, t: real)
    ensures |Below(data, f, t)| + |Above(data, f, t)| == |data|
    ensures multiset(Below(data, f, t)) + multiset(Above(data, f, t)) == multiset(data)
    ensures forall r :: r in Below(data, f, t) <==> r in data && Feature(r, f) <= t
    ensures forall r :: r in Above(data, f, t) <==> r in data && Feature(r, f) > t
  {
    if data != [] {
      var init := data[..|data| - 1];
      var last := data[|data| - 1];
      assert data == init + [last];
      PartitionLaws(init, f, t);
    }
  }

  /** Both sides of a split keep the records' widths. */
  lemma {:induction false} SidesRectangular(data: seq<ProcessedRecord>, f: nat, t: real)
    requires Rectangular(data) && f < NumFeatures(data)
    ensures HasFeatures(data, f + 1)
    ensures Below(data, f, t) != [] ==> Rectangular(Below(data, f, t)) && NumFeatures(Below(data, f, t)) == NumFeatures(data)
    ensures Above(data, f, t) != [] ==> Rectangular(Above(data, f, t)) && NumFeatures(Above(data, f, t)) == NumFeatures(data)
  {
    PartitionLaws(data, f, t);
    var below, above := Below(data, f, t), Above(data, f, t);
    forall i | 0 <= i < |below|
      ensures |below[i].features| == NumFeatures(data)
    {
      assert below[i] in below;
    }
    forall i | 0 <= i < |above|
      ensures |above[i].features| == NumFeatures(data)
    {
      assert above[i] in above;
    }
  }

  /** Feature `f` of every record, in order. */
  function Column(data: seq<ProcessedRecord>, f: nat): (col: seq<real>)
    ensures |col| == |data|
    ensures forall i :: 0 <= i < |data| ==> col[i] == Feature(data[i], f)
  {
    if data == [] then [] else Column(data[..|data| - 1], f) + [Feature(data[|data| - 1], f)]
  }

  predicate StrictlyIncreasing(s: seq<real>) {
    forall i, j :: 0 <= i < j < |s| ==> s[i] < s[j]
  }

  /** Inserts `x` into an increasing sequence before the first larger value,
      unless it is already present. */
  function InsertDistinct(s: seq<real>, x: real): seq<real>
  {
    if s == [] then [x]
    else if x < s[0] then [x] + s
    else if x == s[0] then s
    else [s[0]] + InsertDistinct(s[1..], x)
  }

  /** `sort_by` followed by `dedup`: the values in increasing order, each
      once. */
  function SortedDistinct(s: seq<real>): seq<real>
  {
    if s == [] then [] else InsertDistinct(SortedDistinct(s[..|s| - 1]), s[|s| - 1])
  }

  /** Inserting into a strictly increasing sequence keeps it strictly
      increasing and adds exactly `x` to its elements. */
  lemma {:induction false} InsertDistinctLaws(s: seq<real>, x: real)
    requires StrictlyIncreasing(s)
    ensures StrictlyIncreasing(InsertDistinct(s, x))
    ensures forall y :: y in InsertDistinct(s, x) <==> y in s || y == x
  {
    if s != [] && x > s[0] {
      InsertDistinctLaws(s[1..], x);
      var rest := InsertDistinct(s[1..], x);
      forall j | 0 <= j < |rest|
        ensures s[0] < rest[j]
      {
        assert rest[j] in rest;
      }
    }
  }

  /** The sorted, deduplicated values are strictly increasing and are
      exactly the values of `s`. */
  lemma {:induction false} SortedDistinctLaws(s: seq<real>)
    ensures StrictlyIncreasing(SortedDistinct(s))
    ensures forall y :: y in SortedDistinct(s) <==> y in s
  {
    if s != [] {
      var init := s[..|s| - 1];
      SortedDistinctLaws(init);
      InsertDistinctLaws(SortedDistinct(init), s[|s| - 1]);
      assert s == init + [s[|s| - 1]];
    }
  }

  /** The midpoints of consecutive values, the candidate thresholds. */
  function Midpoints(s: seq<real>): (m: seq<real>)
    ensures |m| == if |s| == 0 then 0 else |s| - 1
  {
    if |s| <= 1 then [] else Midpoints(s[..|s| - 1]) + [(s[|s| - 2] + s[|s| - 1]) / 2.0]
  }

  /** The `i`-th midpoint lies halfway between the `i`-th value and the next. */
  lemma {:induction false} MidpointAt(s: seq<real>, i: nat)
    requires i + 1 < |s|
    ensures Midpoints(s)[i] == (s[i] + s[i + 1]) / 2.0
  {
    if i + 2 < |s| {
      MidpointAt(s[..|s| - 1], i);
    }
  }

  /** The midpoints of a strictly increasing sequence increase strictly. */
  lemma MidpointsIncreasing(s: seq<real>, i: nat, j: nat)
    requires StrictlyIncreasing(s) && i < j && j + 1 < |s|
    ensures Midpoints(s)[i] < Midpoints(s)[j]
  {
    MidpointAt(s, i);
    MidpointAt(s, j);
    assert s[i] < s[j] && s[i + 1] <= s[j + 1];
  }

  /** The thresholds of a feature increase strictly. */
  lemma ThresholdsIncreasing(data: seq<ProcessedRecord>, f: nat, i: nat, j: nat)
    requires i < j < |Thresholds(data, f)|
    ensures Thresholds(data, f)[i] < Thresholds(data, f)[j]
  {
    SortedDistinctLaws(Column(data, f));
    MidpointsIncreasing(SortedDistinct(Column(data, f)), i, j);
  }

  datatype Split = Split(feature: nat, threshold: real)

  /** The candidate thresholds of feature `f`: midpoints of its consecutive
      distinct values, in increasing order. */
  function Thresholds(data: seq<ProcessedRecord>, f: nat): seq<real>
  {
    Midpoints(SortedDistinct(Column(data, f)))
  }

  /** Both sides of the split hold records. */
  predicate Nondegenerate(data: seq<ProcessedRecord>, s: Split)
  {
    |Below(data, s.feature, s.threshold)| > 0 && |Above(data, s.feature, s.threshold)| > 0
  }

  /** Weighted impurity of a split. */
  function Cost(data: seq<ProcessedRecord>, s: Split): real
    requires Nondegenerate(data, s)
  {
    SplitGini(Below(data, s.feature, s.threshold), Above(data, s.feature, s.threshold))
  }

  /** State of the search: the least impurity found and the split with it. */
  datatype Search = Search(bestGini: real, best: Option<Split>)

  lemma RectangularHasFeatures(data: seq<ProcessedRecord>, n: nat)
    requires Rectangular(data) && n <= NumFeatures(data)
    ensures HasFeatures(data, n)
  {
  }

  lemma FewerFeatures(data: seq<ProcessedRecord>, n: nat, m: nat)
    requires HasFeatures(data, n) && m <= n
    ensures HasFeatures(data, m)
  {
  }

  /** One step of the search: a degenerate split is skipped; otherwise it
      replaces the best one exactly when it is strictly better. */
  function Consider(data: seq<ProcessedRecord>, st: Search, s: Split): Search
  {
    if !Nondegenerate(data, s) then st
    else if Cost(data, s) < st.bestGini then Search(Cost(data, s), Some(s))
    else st
  }

  /** The search state when the outer loop reaches feature `f`: every
      threshold of features `0 .. f - 1` has been tried. */
  function ScanBefore(data: seq<ProcessedRecord>, f: nat): Search
    decreases f, 0, 0
  {
    if f == 0 then Search(F32Max, None)
    else ScanUpTo(data, f - 1, |Thresholds(data, f - 1)|)
  }

  /** The search state after the first `i` thresholds of feature `f`. */
  function ScanUpTo(data: seq<ProcessedRecord>, f: nat, i: nat): Search
    requires i <= |Thresholds(data, f)|
    decreases f, 1, i
  {
    if i == 0 then ScanBefore(data, f)
    else Consider(data, ScanUpTo(data, f, i - 1), Split(f, Thresholds(data, f)[i - 1]))
  }

  /** Reference definition of `find_best_split`. */
  function BestSplit(data: seq<ProcessedRecord>): Option<Split>
    requires Rectangular(data)
  {
    if data == [] then None else ScanBefore(data, NumFeatures(data)).best
  }

  /** A candidate split: a feature of the first record at one of that
      feature's thresholds. */
  ghost predicate Candidate(data: seq<ProcessedRecord>, s: Split) {
    s.feature < NumFeatures(data) && s.threshold in Thresholds(data, s.feature)
  }

  /** `s` is among the candidates tried before the `i`-th threshold of
      feature `f`. */
  ghost predicate Tried(data: seq<ProcessedRecord>, f: nat, i: nat, s: Split)
    requires i <= |Thresholds(data, f)|
  {
    || (s.feature < f && s.threshold in Thresholds(data, s.feature))
    || (s.feature == f && s.threshold in Thresholds(data, f)[..i])
  }

  /** Search order: by feature, then by increasing threshold. */
  predicate Earlier(a: Split, b: Split) {
    a.feature < b.feature || (a.feature == b.feature && a.threshold < b.threshold)
  }

  /** The running minimum kept by `find_best_split`, stated over any set of
      tried splits, any test of which splits count and any cost: no split
      means none of the tried ones counted; a split means it is a tried one
      that counts, the recorded value is its cost, no tried split that
      counts costs less, and every earlier one costs strictly more (ties go
      to the first split found). */
  ghost predicate RunningMin(st: Search, tried: Split -> bool, counts: Split -> bool, cost: Split -> real) {
    && (st.best.None? ==>
          st.bestGini == F32Max && forall c :: tried(c) ==> !counts(c))
    && (st.best.Some? ==>
          && tried(st.best.value) && counts(st.best.value) && st.bestGini == cost(st.best.value)
          && (forall c :: tried(c) && counts(c) ==> cost(st.best.value) <= cost(c))
          && (forall c :: tried(c) && counts(c) && Earlier(c, st.best.value) ==> cost(st.best.value) < cost(c)))
  }

  /** Trying a split `c` that comes after every tried one, and keeping it
      exactly when it counts and costs strictly less, keeps the running
      minimum. */
  lemma RunningMinStep(st: Search, tried: Split -> bool, tried': Split -> bool,
                       counts: Split -> bool, cost: Split -> real, c: Split)
    requires RunningMin(st, tried, counts, cost)
    requires forall x :: tried'(x) == (tried(x) || x == c)
    requires forall x :: tried(x) ==> Earlier(x, c)
    requires counts(c) ==> cost(c) < F32Max
    ensures RunningMin(if counts(c) && cost(c) < st.bestGini then Search(cost(c), Some(c)) else st,
                       tried', counts, cost)
  {
  }

  /** The running minimum depends only on which splits were tried. */
  lemma RunningMinSameTried(st: Search, tried: Split -> bool, tried': Split -> bool,
                            counts: Split -> bool, cost: Split -> real)
    requires RunningMin(st, tried, counts, cost)
    requires forall x :: tried'(x) == tried(x)
    ensures RunningMin(st, tried', counts, cost)
  {
  }

  ghost function TriedAt(data: seq<ProcessedRecord>, f: nat, i: nat): Split -> bool
    requires i <= |Thresholds(data, f)|
  {
    s => Tried(data, f, i, s)
  }

  ghost function CountsAt(data: seq<ProcessedRecord>): Split -> bool {
    s => Nondegenerate(data, s)
  }

  ghost function CostAt(data: seq<ProcessedRecord>): Split -> real {
    s => if Nondegenerate(data, s) then Cost(data, s) else 0.0
  }

  /** What the search state says about the candidates tried so far: the
      running minimum of the impurity over the tried splits with two
      nonempty sides. */
  ghost predicate Sound(data: seq<ProcessedRecord>, st: Search, f: nat, i: nat)
    requires i <= |Thresholds(data, f)|
  {
    RunningMin(st, TriedAt(data, f, i), CountsAt(data), CostAt(data))
  }

  /** Every impurity is below the initial `f32::MAX`. */
  lemma CostBelowMax(data: seq<ProcessedRecord>, s: Split)
    requires Nondegenerate(data, s)
    ensures 0.0 <= Cost(data, s) < 1.0 < F32Max
  {
    SplitGiniBetween(Below(data, s.feature, s.threshold), Above(data, s.feature, s.threshold));
  }

  /** Trying one more threshold adds exactly that split to the tried ones. */
  lemma TriedStep(data: seq<ProcessedRecord>, f: nat, i: nat, c: Split)
    requires i < |Thresholds(data, f)|
    ensures Tried(data, f, i + 1, c) <==> Tried(data, f, i, c) || c == Split(f, Thresholds(data, f)[i])
  {
    var ts := Thresholds(data, f);
    assert ts[..i + 1] == ts[..i] + [ts[i]];
  }

  /** Considering the next threshold keeps the search state `Sound`. */
  lemma ConsiderSound(data: seq<ProcessedRecord>, st: Search, f: nat, i: nat)
    requires i < |Thresholds(data, f)|
    requires Sound(data, st, f, i)
    ensures Sound(data, Consider(data, st, Split(f, Thresholds(data, f)[i])), f, i + 1)
  {
    var c := Split(f, Thresholds(data, f)[i]);
    var tried, tried', counts, cost := TriedAt(data, f, i), TriedAt(data, f, i + 1), CountsAt(data), CostAt(data);
    forall x
      ensures tried'(x) == (tried(x) || x == c)
      ensures tried(x) ==> Earlier(x, c)
    {
      TriedStep(data, f, i, x);
      if tried(x) && x.feature == f {
        var ts := Thresholds(data, f);
        var j :| 0 <= j < i && ts[..i][j] == x.threshold;
        ThresholdsIncreasing(data, f, j, i);
      }
    }
    if Nondegenerate(data, c) {
      CostBelowMax(data, c);
    }
    RunningMinStep(st, tried, tried', counts, cost, c);
  }

  lemma ScanUpToStep(data: seq<ProcessedRecord>, f: nat, i: nat)
    requires 0 < i <= |Thresholds(data, f)|
    requires Sound(data, ScanUpTo(data, f, i - 1), f, i - 1)
    ensures Sound(data, ScanUpTo(data, f, i), f, i)
  {
    ConsiderSound(data, ScanUpTo(data, f, i - 1), f, i - 1);
  }

  /** The search state at every point of the two loops is `Sound`. */
  lemma {:induction false} ScanUpToSound(data: seq<ProcessedRecord>, f: nat, i: nat)
    requires i <= |Thresholds(data, f)|
    ensures Sound(data, ScanUpTo(data, f, i), f, i)
    decreases f, 1, i
  {
    if i == 0 {
      ScanBeforeSound(data, f);
    } else {
      ScanUpToSound(data, f, i - 1);
      ScanUpToStep(data, f, i);
    }
  }

  lemma {:induction false} ScanBeforeSound(data: seq<ProcessedRecord>, f: nat)
    ensures Sound(data, ScanBefore(data, f), f, 0)
    decreases f, 0, 0
  {
    if f == 0 {
      forall x
        ensures !TriedAt(data, 0, 0)(x)
      {
      }
    } else {
      var ts := Thresholds(data, f - 1);
      ScanUpToSound(data, f - 1, |ts|);
      assert ts[..|ts|] == ts;
      var tried, tried' := TriedAt(data, f - 1, |ts|), TriedAt(data, f, 0);
      forall x
        ensures tried'(x) == tried(x)
      {
      }
      RunningMinSameTried(ScanBefore(data, f), tried, tried', CountsAt(data), CostAt(data));
    }
  }

  /** The body of `find_best_split`'s inner loop: split the records at the
      `i`-th threshold of feature `f`, skip the split if a side is empty,
      and keep it if its weighted impurity beats the best so far. */
  method TryThreshold(data: seq<ProcessedRecord>, f: nat, i: nat, threshold: real, gini0: real, split0: Option<Split>)
    returns (bestGini: real, bestSplit: Option<Split>)
    requires HasFeatures(data, f + 1) && i < |Thresholds(data, f)|
    requires threshold == Thresholds(data, f)[i]
    requires Search(gini0, split0) == ScanUpTo(data, f, i)
    ensures Search(bestGini, bestSplit) == ScanUpTo(data, f, i + 1)
  {
    bestGini, bestSplit := gini0, split0;
    var leftData, rightData := SplitData(data, f, threshold);
    if |leftData| == 0 || |rightData| == 0 {
      return;
    }
    var gini := CalculateSplitGini(leftData, rightData);
    if gini < bestGini {
      bestGini := gini;
      bestSplit := Some(Split(f, threshold));
    }
  }

  /** A feature of a record has at least one distinct value. */
  lemma SomeValue(data: seq<ProcessedRecord>, f: nat)
    requires data != []
    ensures |SortedDistinct(Column(data, f))| > 0
  {
    SortedDistinctLaws(Column(data, f));
    assert Feature(data[0], f) in Column(data, f);
  }

  /** Finishing the thresholds of feature `f` is starting feature `f + 1`. */
  lemma NextFeature(data: seq<ProcessedRecord>, f: nat)
    ensures ScanBefore(data, f + 1) == ScanUpTo(data, f, |Thresholds(data, f)|)
  {
  }

  /** The threshold between the `i`-th distinct value and the next. */
  method Midpoint(values: seq<real>, i: nat) returns (t: real)
    requires i + 1 < |values|
    ensures t == Midpoints(values)[i]
  {
    t := (values[i] + values[i + 1]) / 2.0;
    MidpointAt(values, i);
  }

  /** One pass of `find_best_split`'s inner loop: the midpoint of every pair
      of neighbouring distinct values of feature `f` is tried in turn. */
  method SearchFeature(data: seq<ProcessedRecord>, f: nat, gini0: real, split0: Option<Split>)
    returns (bestGini: real, bestSplit: Option<Split>)
    requires HasFeatures(data, f + 1) && data != []
    requires Search(gini0, split0) == ScanBefore(data, f)
    ensures Search(bestGini, bestSplit) == ScanBefore(data, f + 1)
  {
    var featureValues := SortedDistinct(Column(data, f));
    SomeValue(data, f);
    bestGini, bestSplit := gini0, split0;
    for i := 0 to |featureValues| - 1
      invariant Search(bestGini, bestSplit) == ScanUpTo(data, f, i)
    {
      var threshold := Midpoint(featureValues, i);
      bestGini, bestSplit := TryThreshold(data, f, i, threshold, bestGini, bestSplit);
    }
    NextFeature(data, f);
  }

  /** `find_best_split`: for each feature, sort and deduplicate its values,
      then try the midpoint of every pair of neighbours, keeping the first
      split of least weighted impurity. */
  method FindBestSplit(data: seq<ProcessedRecord>) returns (bestSplit: Option<Split>)
    requires Rectangular(data)
    ensures bestSplit == BestSplit(data)
  {
    if data == [] {
      return None;
    }
    var numFeatures := |data[0].features|;
    RectangularHasFeatures(data, numFeatures);
    var bestGini := F32Max;
    bestSplit := None;
    for featureIdx := 0 to numFeatures
      invariant Search(bestGini, bestSplit) == ScanBefore(data, featureIdx)
    {
      FewerFeatures(data, numFeatures, featureIdx + 1);
      bestGini, bestSplit := SearchFeature(data, featureIdx, bestGini, bestSplit);
    }
  }

  /** Every candidate threshold leaves records on both sides: it lies
      strictly between two distinct values of its feature. */
  lemma ThresholdSeparates(data: seq<ProcessedRecord>, f: nat, t: real)
    requires t in Thresholds(data, f)
    ensures Nondegenerate(data, Split(f, t))
  {
    var col := Column(data, f);
    var v := SortedDistinct(col);
    SortedDistinctLaws(col);
    var j :| 0 <= j < |Thresholds(data, f)| && Thresholds(data, f)[j] == t;
    MidpointAt(v, j);
    assert v[j] < v[j + 1];
    assert v[j] in col && v[j + 1] in col;
    var a :| 0 <= a < |data| && col[a] == v[j];
    var b :| 0 <= b < |data| && col[b] == v[j + 1];
    PartitionLaws(data, f, t);
    assert data[a] in Below(data, f, t);
    assert data[b] in Above(data, f, t);
  }

  /** A feature has no candidate threshold exactly when all records agree
      on it. */
  lemma NoThresholdsIffConstant(data: seq<ProcessedRecord>, f: nat)
    ensures Thresholds(data, f) == [] <==>
            forall i, j :: 0 <= i < |data| && 0 <= j < |data| ==> Feature(data[i], f) == Feature(data[j], f)
  {
    var col := Column(data, f);
    var v := SortedDistinct(col);
    SortedDistinctLaws(col);
    if Thresholds(data, f) == [] {
      assert |v| <= 1;
      forall i, j | 0 <= i < |data| && 0 <= j < |data|
        ensures Feature(data[i], f) == Feature(data[j], f)
      {
        assert col[i] in v && col[j] in v;
      }
    } else {
      assert v[0] < v[1];
      assert v[0] in col && v[1] in col;
      var a :| 0 <= a < |data| && col[a] == v[0];
      var b :| 0 <= b < |data| && col[b] == v[1];
      assert Feature(data[a], f) != Feature(data[b], f);
    }
  }

  /** What `find_best_split` promises: every candidate (a feature of the
      first record at one of its thresholds) leaves records on both sides;
      there is no split exactly when there is no candidate; and a split
      returned is a candidate whose weighted impurity no candidate beats,
      and every candidate earlier in the search order does strictly worse. */
  lemma BestSplitLaws(data: seq<ProcessedRecord>)
    requires Rectangular(data)
    ensures forall c :: Candidate(data, c) ==> Nondegenerate(data, c)
    ensures BestSplit(data).None? <==> forall c :: !Candidate(data, c)
    ensures BestSplit(data).Some? ==>
              var s := BestSplit(data).value;
              && Candidate(data, s) && Nondegenerate(data, s)
              && (forall c :: Candidate(data, c) ==> Cost(data, s) <= Cost(data, c))
              && (forall c :: Candidate(data, c) && Earlier(c, s) ==> Cost(data, s) < Cost(data, c))
  {
    forall c | Candidate(data, c)
      ensures Nondegenerate(data, c)
    {
      ThresholdSeparates(data, c.feature, c.threshold);
    }
    if data != [] {
      var n := NumFeatures(data);
      var st := ScanBefore(data, n);
      ScanBeforeSound(data, n);
      var tried, counts, cost := TriedAt(data, n, 0), CountsAt(data), CostAt(data);
      assert RunningMin(st, tried, counts, cost);
      forall c
        ensures tried(c) == Candidate(data, c)
      {
      }
      if st.best.Some? {
        var s := st.best.value;
        assert counts(s) && cost(s) == Cost(data, s);
        forall c | Candidate(data, c)
          ensures Cost(data, s) <= Cost(data, c)
          ensures Earlier(c, s) ==> Cost(data, s) < Cost(data, c)
        {
          assert tried(c) && counts(c);
          assert cost(s) <= cost(c);
          assert Earlier(c, s) ==> cost(s) < cost(c);
          assert cost(c) == Cost(data, c);
        }
      } else {
        forall c | Candidate(data, c)
          ensures tried(c) && counts(c)
        {
        }
      }
    }
  }

  /** No split is found exactly when the records agree on every feature. */
  lemma NoSplitIffConstant(data: seq<ProcessedRecord>)
    requires Rectangular(data)
    ensures BestSplit(data).None? <==>
            forall f: nat, i, j :: f < NumFeatures(data) && 0 <= i < |data| && 0 <= j < |data| ==>
              Feature(data[i], f) == Feature(data[j], f)
  {
    BestSplitLaws(data);
    if BestSplit(data).None? {
      forall f: nat, i, j | f < NumFeatures(data) && 0 <= i < |data| && 0 <= j < |data|
        ensures Feature(data[i], f) == Feature(data[j], f)
      {
        NoThresholdsIffConstant(data, f);
        if Thresholds(data, f) != [] {
          assert Candidate(data, Split(f, Thresholds(data, f)[0]));
        }
      }
    } else {
      NoThresholdsIffConstant(data, BestSplit(data).value.feature);
    }
  }
}
