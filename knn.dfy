/** The k-nearest-neighbours classifier: it keeps a copy of the training
    records and predicts the most common class among the `k` records
    closest to the query. */
module NearestNeighbors {
  import opened Common
  import opened Preprocessing
  import opened Tally
  import opened Gini

  /** A distance as `euclidean_distance` returns it. `Finite(s)` stands for
      the square root of the sum of squares `s`; since the square root is
      increasing, comparing the sums orders the distances alike.
      `Sentinel` is the `f32::MAX` returned for vectors of different
      lengths, farther than any finite distance. */
  datatype Distance = Finite(squared: real) | Sentinel

  /** The order `partial_cmp` puts on distances. */
  predicate Le(a: Distance, b: Distance) {
    b.Sentinel? || (a.Finite? && a.squared <= b.squared)
  }

  /** Sum of the squared differences of two equally long vectors. */
  function SquaredSum(a: seq<real>, b: seq<real>): (s: real)
    requires |a| == |b|
    ensures s >= 0.0
  {
    if a == [] then 0.0
    else
      var d := a[|a| - 1] - b[|b| - 1];
      SquaredSum(a[..|a| - 1], b[..|b| - 1]) + d * d
  }

  /** A vector is at squared distance 0 from itself. */
  lemma {:induction false} SquaredSumSelf(a: seq<real>)
    ensures SquaredSum(a, a) == 0.0
  {
    if a != [] {
      SquaredSumSelf(a[..|a| - 1]);
    }
  }

  /** `euclidean_distance`: the sentinel exactly for vectors of different
      lengths, otherwise a finite, non-negative distance. */
  function EuclideanDistance(a: seq<real>, b: seq<real>): (d: Distance)
    ensures d.Sentinel? <==> |a| != |b|
    ensures d.Finite? ==> d.squared >= 0.0
  {
    if |a| != |b| then Sentinel else Finite(SquaredSum(a, b))
  }

  /** A vector is at distance 0 from itself. */
  lemma DistanceToSelf(a: seq<real>)
    ensures EuclideanDistance(a, a) == Finite(0.0)
  {
    SquaredSumSelf(a);
  }

  /** A (distance, target) pair of the `distances` vector. */
  datatype Neighbour = Neighbour(distance: Distance, target: nat)

  /** One pair per training record, in order, measured from `query`. */
  function Pairs(query: seq<real>, data: seq<ProcessedRecord>): (ps: seq<Neighbour>)
    ensures |ps| == |data|
  {
    if data == [] then []
    else
      var last := data[|data| - 1];
      Pairs(query, data[..|data| - 1]) + [Neighbour(EuclideanDistance(query, last.features), last.target)]
  }

  /** The `i`-th pair is the `i`-th record's distance and target. */
  lemma {:induction false} PairAt(query: seq<real>, data: seq<ProcessedRecord>, i: nat)
    requires i < |data|
    ensures Pairs(query, data)[i] == Neighbour(EuclideanDistance(query, data[i].features), data[i].target)
  {
    if i < |data| - 1 {
      PairAt(query, data[..|data| - 1], i);
    }
  }

  /** Each pair is no farther than the next. */
  predicate SortedByDistance(s: seq<Neighbour>) {
    |s| < 2 || (Le(s[0].distance, s[1].distance) && SortedByDistance(s[1..]))
  }

  /** In a sorted sequence no pair is farther than a later one. */
  lemma {:induction false} SortedPairwise(s: seq<Neighbour>)
    requires SortedByDistance(s)
    ensures forall i, j :: 0 <= i < j < |s| ==> Le(s[i].distance, s[j].distance)
  {
    if |s| >= 2 {
      SortedPairwise(s[1..]);
      forall i, j | 0 <= i < j < |s|
        ensures Le(s[i].distance, s[j].distance)
      {
        if i > 0 {
          assert s[i] == s[1..][i - 1] && s[j] == s[1..][j - 1];
        } else if j > 1 {
          assert s[1] == s[1..][0] && s[j] == s[1..][j - 1];
        }
      }
    }
  }

  /** Inserts `x` before the first pair strictly farther than it, so that it
      follows every pair at its own distance. */
  function Insert(s: seq<Neighbour>, x: Neighbour): (r: seq<Neighbour>)
    ensures |r| == |s| + 1
  {
    if s == [] then [x]
    else if !Le(s[0].distance, x.distance) then [x] + s
    else [s[0]] + Insert(s[1..], x)
  }

  /** `sort_by` on the distance: a stable sort, written as insertion of each
      pair in turn. */
  function SortByDistance(s: seq<Neighbour>): (r: seq<Neighbour>)
    ensures |r| == |s|
  {
    if s == [] then [] else Insert(SortByDistance(s[..|s| - 1]), s[|s| - 1])
  }

  /** `[x]` when `x` is at distance `d`, else nothing. */
  function IfAt(x: Neighbour, d: Distance): seq<Neighbour> {
    if x.distance == d then [x] else []
  }

  /** The pairs at distance `d`, in order. */
  function AtDistance(s: seq<Neighbour>, d: Distance): seq<Neighbour> {
    if s == [] then [] else IfAt(s[0], d) + AtDistance(s[1..], d)
  }

  lemma {:induction false} AtDistanceAppend(a: seq<Neighbour>, b: seq<Neighbour>, d: Distance)
    ensures AtDistance(a + b, d) == AtDistance(a, d) + AtDistance(b, d)
  {
    if a == [] {
      assert a + b == b;
    } else {
      assert (a + b)[0] == a[0];
      assert (a + b)[1..] == a[1..] + b;
      AtDistanceAppend(a[1..], b, d);
    }
  }

  lemma AppendAssoc(a: seq<Neighbour>, b: seq<Neighbour>, c: seq<Neighbour>)
    ensures a + (b + c) == (a + b) + c
  {
  }

  /** No pair of a sorted sequence that starts farther than `x` is at the
      distance of `x`. */
  lemma {:induction false} NoneAtBeyond(s: seq<Neighbour>, x: Neighbour)
    requires SortedByDistance(s)
    requires s != [] ==> !Le(s[0].distance, x.distance)
    ensures AtDistance(s, x.distance) == []
  {
    if s != [] {
      NoneAtBeyond(s[1..], x);
    }
  }

  /** Insertion adds `x` to the pairs. */
  lemma {:induction false} InsertMultiset(s: seq<Neighbour>, x: Neighbour)
    ensures multiset(Insert(s, x)) == multiset(s) + multiset{x}
  {
    if s != [] && Le(s[0].distance, x.distance) {
      InsertMultiset(s[1..], x);
      assert s == [s[0]] + s[1..];
    }
  }

  /** Insertion keeps the order. */
  lemma {:induction false} InsertSorted(s: seq<Neighbour>, x: Neighbour)
    requires SortedByDistance(s)
    ensures SortedByDistance(Insert(s, x))
    ensures Insert(s, x) != [] && Insert(s, x)[0] == if s != [] && Le(s[0].distance, x.distance) then s[0] else x
  {
    if s != [] && Le(s[0].distance, x.distance) {
      InsertSorted(s[1..], x);
    }
  }

  /** Insertion puts `x` after the pairs at its own distance. */
  lemma {:induction false} InsertAtDistance(s: seq<Neighbour>, x: Neighbour, d: Distance)
    requires SortedByDistance(s)
    ensures AtDistance(Insert(s, x), d) == AtDistance(s, d) + AtDistance([x], d)
  {
    if s == [] {
    } else if !Le(s[0].distance, x.distance) {
      assert Insert(s, x) == [x] + s;
      assert ([x] + s)[1..] == s;
      if x.distance == d {
        NoneAtBeyond(s, x);
      }
    } else {
      var h, t := s[0], s[1..];
      InsertAtDistance(t, x, d);
      AppendAssoc(IfAt(h, d), AtDistance(t, d), AtDistance([x], d));
    }
  }

  /** The stable sort orders the pairs by distance. */
  lemma {:induction false} SortSorted(s: seq<Neighbour>)
    ensures SortedByDistance(SortByDistance(s))
  {
    if s != [] {
      SortSorted(s[..|s| - 1]);
      InsertSorted(SortByDistance(s[..|s| - 1]), s[|s| - 1]);
    }
  }

  /** The stable sort keeps every pair. */
  lemma {:induction false} SortPermutes(s: seq<Neighbour>)
    ensures multiset(SortByDistance(s)) == multiset(s)
  {
    if s != [] {
      var init, last := s[..|s| - 1], s[|s| - 1];
      SortPermutes(init);
      InsertMultiset(SortByDistance(init), last);
      assert s == init + [last];
    }
  }

  /** The sort is stable: the pairs at each distance keep their original
      order. */
  lemma {:induction false} SortStable(s: seq<Neighbour>, d: Distance)
    ensures AtDistance(SortByDistance(s), d) == AtDistance(s, d)
  {
    if s != [] {
      var init, last := s[..|s| - 1], s[|s| - 1];
      SortStable(init, d);
      SortSorted(init);
      InsertAtDistance(SortByDistance(init), last, d);
      assert AtDistance(s, d) == AtDistance(init, d) + AtDistance([last], d) by {
        assert s == init + [last];
        AtDistanceAppend(init, [last], d);
      }
    }
  }

  /** The targets of the pairs, in order. */
  function TargetsOf(s: seq<Neighbour>): (ts: seq<nat>)
    ensures |ts| == |s|
    ensures forall i :: 0 <= i < |s| ==> ts[i] == s[i].target
  {
    if s == [] then [] else TargetsOf(s[..|s| - 1]) + [s[|s| - 1].target]
  }

  /** The `take(k)` step: the targets of the first `min(k, n)` pairs. */
  function KNearest(sorted: seq<Neighbour>, k: nat): seq<nat> {
    TargetsOf(sorted[..Min(k, |sorted|)])
  }

  /** The training records' pairs, nearest first. */
  function Ranked(query: seq<real>, data: seq<ProcessedRecord>): (r: seq<Neighbour>)
    ensures |r| == |data|
  {
    SortByDistance(Pairs(query, data))
  }

  /** The targets of the `k` training records nearest to `query`. */
  function Neighbours(data: seq<ProcessedRecord>, query: seq<real>, k: nat): seq<nat> {
    KNearest(Ranked(query, data), k)
  }

  /** The ranking holds the training records' pairs, one for one, nearest
      first. */
  lemma RankedLaws(query: seq<real>, data: seq<ProcessedRecord>)
    ensures multiset(Ranked(query, data)) == multiset(Pairs(query, data))
    ensures SortedByDistance(Ranked(query, data))
  {
    SortSorted(Pairs(query, data));
    SortPermutes(Pairs(query, data));
  }

  /** There are `min(k, n)` neighbours, the targets of the first pairs of
      the ranking. */
  lemma NeighboursAreFirst(data: seq<ProcessedRecord>, query: seq<real>, k: nat)
    ensures |Neighbours(data, query, k)| == Min(k, |data|)
    ensures forall i :: 0 <= i < Min(k, |data|) ==>
              Neighbours(data, query, k)[i] == Ranked(query, data)[i].target
  {
    RankedLaws(query, data);
  }

  /** The chosen and the left-out pairs together are the training records'
      pairs. */
  lemma ChosenAndLeftOut(data: seq<ProcessedRecord>, query: seq<real>, k: nat)
    ensures var s, m := Ranked(query, data), Min(k, |data|);
            multiset(s[..m]) + multiset(s[m..]) == multiset(Pairs(query, data))
  {
    var s, m := Ranked(query, data), Min(k, |data|);
    RankedLaws(query, data);
    assert s == s[..m] + s[m..];
  }

  /** No chosen pair is farther than a left-out one. */
  lemma ChosenNoFarther(data: seq<ProcessedRecord>, query: seq<real>, k: nat, i: nat, j: nat)
    requires i < Min(k, |data|) <= j < |data|
    ensures Le(Ranked(query, data)[i].distance, Ranked(query, data)[j].distance)
  {
    RankedLaws(query, data);
    SortedPairwise(Ranked(query, data));
  }

  /** Each ranked pair carries the target of some training record. */
  lemma RankedFromData(query: seq<real>, data: seq<ProcessedRecord>, i: nat)
    requires i < |data|
    ensures i < |Ranked(query, data)| && Ranked(query, data)[i].target in Targets(data)
  {
    var ps, s := Pairs(query, data), Ranked(query, data);
    RankedLaws(query, data);
    assert s[i] in multiset(ps) by {
      assert s[i] in multiset(s);
    }
    var j :| 0 <= j < |ps| && ps[j] == s[i];
    PairAt(query, data, j);
    assert Targets(data)[j] == s[i].target;
  }

  /** Every neighbour is the target of some training record. */
  lemma NeighbourFromData(data: seq<ProcessedRecord>, query: seq<real>, k: nat, c: nat)
    requires c in Neighbours(data, query, k)
    ensures c in Targets(data)
  {
    NeighboursAreFirst(data, query, k);
    var ns := Neighbours(data, query, k);
    var i :| 0 <= i < |ns| && ns[i] == c;
    RankedFromData(query, data, i);
  }

  /** With training data and `k >= 1`, the predicted class is the target of
      some training record. */
  lemma VoteIsTrainingTarget(data: seq<ProcessedRecord>, query: seq<real>, k: nat, c: nat)
    requires data != [] && k >= 1
    requires IsMostCommon(Neighbours(data, query, k), c)
    ensures c in Targets(data)
  {
    NeighboursAreFirst(data, query, k);
    NeighbourFromData(data, query, k, c);
  }

  /** `KNN`: the stored training records and the number of neighbours. */
  class Knn {
    var trainingData: seq<ProcessedRecord>
    const k: nat

    /** `KNN::new`: no stored records. */
    constructor(k: nat)
      ensures trainingData == [] && this.k == k
    {
      trainingData := [];
      this.k := k;
    }

    /** `train`: keep an exact copy of the records, discarding earlier
        ones. */
    method Train(data: seq<ProcessedRecord>)
      modifies this
      ensures trainingData == data
    {
      trainingData := data;
    }

    /** `majority_vote`: a label of maximal count, 0 when there are none. */
    method MajorityVote(neighbours: seq<nat>) returns (c: nat)
      ensures IsMostCommon(neighbours, c)
    {
      c := MostCommon(neighbours);
    }

    /** `predict`: 0 without stored records; otherwise one (distance,
        target) pair per stored record, sorted by distance, and the
        majority vote of the first `k` targets. */
    method Predict(record: ProcessedRecord) returns (c: nat)
      ensures trainingData == [] ==> c == 0
      ensures trainingData != [] ==> IsMostCommon(Neighbours(trainingData, record.features, k), c)
    {
      if trainingData == [] {
        return 0;
      }
      var distances: seq<Neighbour> := [];
      for i := 0 to |trainingData|
        invariant distances == Pairs(record.features, trainingData[..i])
      {
        var trainRecord := trainingData[i];
        var distance := EuclideanDistance(record.features, trainRecord.features);
        assert trainingData[..i + 1][..i] == trainingData[..i];
        distances := distances + [Neighbour(distance, trainRecord.target)];
      }
      assert trainingData[..|trainingData|] == trainingData;
      distances := SortByDistance(distances);
      var kNearest := KNearest(distances, k);
      c := MajorityVote(kNearest);
    }
  }
}
