/** The voting ensemble (`ensemble.rs`): every member is trained on the
    same records, and a prediction is the most common of the members'
    predictions. */
module Ensemble {
  import opened Common
  import opened Preprocessing
  import opened Tally
  import opened Gini
  import opened Splitting
  import Tree = DecisionTree
  import opened NearestNeighbors
  import opened NaiveBayes

  /** A member of the ensemble: one of the three modelled classifiers. */
  datatype Member =
    | TreeMember(tree: Tree.DecisionTree)
    | KnnMember(knn: Knn)
    | BayesMember(nb: GaussianNB)

  /** The object holding a member's state. */
  function Obj(m: Member): object {
    match m
    case TreeMember(t) => t
    case KnnMember(k) => k
    case BayesMember(b) => b
  }

  /** What a member's `train` demands of the records. */
  ghost predicate CanTrain(m: Member, data: seq<ProcessedRecord>) {
    match m
    case TreeMember(_) => Rectangular(data)
    case KnnMember(_) => true
    case BayesMember(_) => ClassesIndexable(data)
  }

  /** The part of a member's state that `train` changes. */
  datatype MemberState =
    | TreeState(root: Option<Tree.Node>)
    | KnnState(trainingData: seq<ProcessedRecord>)
    | BayesState(stats: map<nat, ClassStats>)

  function StateOf(m: Member): MemberState
    reads Obj(m)
  {
    match m
    case TreeMember(t) => TreeState(t.root)
    case KnnMember(k) => KnnState(k.trainingData)
    case BayesMember(b) => BayesState(b.stats)
  }

  /** `after` is the state member `m`'s `train` on `data` leaves when
      started from state `before`. */
  ghost predicate Trained(m: Member, before: MemberState, after: MemberState, data: seq<ProcessedRecord>) {
    match m
    case TreeMember(t) =>
      before.TreeState? && after.TreeState? && Rectangular(data) &&
      (data == [] ==> after.root == before.root) &&
      (data != [] ==> after.root.Some? && Tree.TreeFor(data, 0, t.maxDepth, t.minSamplesSplit, after.root.value))
    case KnnMember(k) =>
      after == KnnState(data)
    case BayesMember(b) =>
      before.BayesState? && after.BayesState? && ClassesIndexable(data) &&
      after.stats.Keys == before.stats.Keys + Classes(Targets(data)) &&
      (forall c :: c in Targets(data) ==> after.stats[c] == StatsFor(data, c)) &&
      (forall c :: c in before.stats && c !in Targets(data) ==> after.stats[c] == before.stats[c])
  }

  /** What a member's `predict` demands of the record. */
  ghost predicate CanPredict(m: Member, record: ProcessedRecord)
    reads Obj(m)
  {
    match m
    case TreeMember(t) => t.TestsWithin(|record.features|)
    case KnnMember(_) => true
    case BayesMember(b) => b.Fits(record.features)
  }

  /** `v` is a result member `m`'s `predict` may give for `record`. */
  ghost predicate MayPredict(m: Member, record: ProcessedRecord, v: nat)
    reads Obj(m)
    requires CanPredict(m, record)
  {
    match m
    case TreeMember(t) => v == t.Predict(record)
    case KnnMember(k) =>
      if k.trainingData == [] then v == 0
      else IsMostCommon(Neighbours(k.trainingData, record.features, k.k), v)
    case BayesMember(b) => IsBestClass(b.Scores(record.features), v)
  }

  /** A member's `train`. */
  method TrainMember(m: Member, data: seq<ProcessedRecord>)
    requires CanTrain(m, data)
    modifies Obj(m)
    ensures Trained(m, old(StateOf(m)), StateOf(m), data)
  {
    match m
    case TreeMember(t) => t.Train(data);
    case KnnMember(k) => k.Train(data);
    case BayesMember(b) => b.Train(data);
  }

  /** A member's `predict`. */
  method PredictMember(m: Member, record: ProcessedRecord) returns (v: nat)
    requires CanPredict(m, record)
    ensures MayPredict(m, record, v)
  {
    match m
    case TreeMember(t) =>
      v := t.Predict(record);
    case KnnMember(k) =>
      v := k.Predict(record);
    case BayesMember(b) =>
      v := b.Predict(record);
  }

  /** The votes `votes` are results the members may give for `record`,
      one per member, in member order. */
  ghost predicate Votes(models: seq<Member>, record: ProcessedRecord, votes: seq<nat>)
    reads set m | m in models :: Obj(m)
  {
    |votes| == |models| &&
    forall i :: 0 <= i < |models| ==> CanPredict(models[i], record) && MayPredict(models[i], record, votes[i])
  }

  /** `VotingClassifier`: the members, each owning its own state. */
  class VotingClassifier {
    const models: seq<Member>

    /** The members' states. */
    ghost function Repr(): set<object> {
      set m | m in models :: Obj(m)
    }

    /** Each member owns its state: no two members share an object. */
    ghost predicate Valid() {
      forall i, j :: 0 <= i < j < |models| ==> Obj(models[i]) != Obj(models[j])
    }

    /** `VotingClassifier::new`: each member must be a model of its own,
        since `new` takes ownership of every boxed model. */
    constructor(models: seq<Member>)
      requires forall i, j :: 0 <= i < j < |models| ==> Obj(models[i]) != Obj(models[j])
      ensures this.models == models
      ensures Valid()
    {
      this.models := models;
    }

    /** `train`: every member, in member order, trains on the same records;
        nothing else changes. */
    method Train(trainingData: seq<ProcessedRecord>)
      requires Valid()
      requires forall i :: 0 <= i < |models| ==> CanTrain(models[i], trainingData)
      modifies Repr()
      ensures forall i :: 0 <= i < |models| ==> Trained(models[i], old(StateOf(models[i])), StateOf(models[i]), trainingData)
    {
      TrainEach(trainingData, iset t: (Member, MemberState, MemberState) | Trained(t.0, t.1, t.2, trainingData));
    }

    /** The loop of `train`. `ok` holds every (member, state before, state
        after) triple that `Trained` accepts; the loop only moves such
        triples around, so it never opens up the members' specifications. */
    method TrainEach(data: seq<ProcessedRecord>, ghost ok: iset<(Member, MemberState, MemberState)>)
      requires Valid()
      requires forall i :: 0 <= i < |models| ==> CanTrain(models[i], data)
      requires forall j, b, a {:trigger Trained(models[j], b, a, data)} ::
        0 <= j < |models| && Trained(models[j], b, a, data) ==> (models[j], b, a) in ok
      modifies Repr()
      ensures forall i :: 0 <= i < |models| ==> (models[i], old(StateOf(models[i])), StateOf(models[i])) in ok
    {
      ghost var before := seq(|models|, j requires 0 <= j < |models| reads Repr() => StateOf(models[j]));
      ghost var after: seq<MemberState> := [];
      for i := 0 to |models|
        invariant |after| == i
        invariant forall j :: 0 <= j < i ==> StateOf(models[j]) == after[j]
        invariant forall j :: i <= j < |models| ==> StateOf(models[j]) == before[j]
        invariant forall j :: 0 <= j < i ==> (models[j], before[j], after[j]) in ok
      {
        TrainNext(i, data, ok);
        after := after + [StateOf(models[i])];
      }
    }

    /** Trains member `i`, which changes that member's state only. */
    method TrainNext(i: nat, data: seq<ProcessedRecord>, ghost ok: iset<(Member, MemberState, MemberState)>)
      requires i < |models|
      requires CanTrain(models[i], data)
      requires forall j, b, a {:trigger Trained(models[j], b, a, data)} ::
        0 <= j < |models| && Trained(models[j], b, a, data) ==> (models[j], b, a) in ok
      modifies Obj(models[i])
      ensures (models[i], old(StateOf(models[i])), StateOf(models[i])) in ok
    {
      TrainMember(models[i], data);
    }

    /** `predict`: one vote per member, in member order, then a vote of
        maximal count (any of them on a tie, since the tally is a hash map),
        or 0 when there are no members. */
    method Predict(record: ProcessedRecord) returns (c: nat)
      requires forall i :: 0 <= i < |models| ==> CanPredict(models[i], record)
      ensures exists votes :: Votes(models, record, votes) && IsMostCommon(votes, c)
    {
      ghost var ok := iset t: (Member, nat) | CanPredict(t.0, record) && MayPredict(t.0, record, t.1);
      var votes := PredictEach(record, ok);
      c := MostCommon(votes);
      forall j | 0 <= j < |models|
        ensures CanPredict(models[j], record) && MayPredict(models[j], record, votes[j])
      {
        assert (models[j], votes[j]) in ok;
      }
    }

    /** The loop of `predict`. `ok` holds every (member, vote) pair that
        `MayPredict` accepts. */
    method PredictEach(record: ProcessedRecord, ghost ok: iset<(Member, nat)>) returns (votes: seq<nat>)
      requires forall i :: 0 <= i < |models| ==> CanPredict(models[i], record)
      requires forall j, v: nat {:trigger MayPredict(models[j], record, v)} ::
        0 <= j < |models| && CanPredict(models[j], record) && MayPredict(models[j], record, v) ==> (models[j], v) in ok
      ensures |votes| == |models|
      ensures forall j :: 0 <= j < |models| ==> (models[j], votes[j]) in ok
    {
      votes := [];
      for i := 0 to |models|
        invariant |votes| == i
        invariant forall j :: 0 <= j < i ==> (models[j], votes[j]) in ok
      {
        forall j, v: nat | 0 <= j < |models| && CanPredict(models[j], record) && MayPredict(models[j], record, v)
          ensures (models[j], v) in ok
        {
          assert old(CanPredict(models[j], record) && MayPredict(models[j], record, v));
        }
        var v := PredictNext(i, record, ok);
        votes := votes + [v];
      }
    }

    /** Member `i`'s vote. */
    method PredictNext(i: nat, record: ProcessedRecord, ghost ok: iset<(Member, nat)>) returns (v: nat)
      requires i < |models| && CanPredict(models[i], record)
      requires forall j, v: nat {:trigger MayPredict(models[j], record, v)} ::
        0 <= j < |models| && CanPredict(models[j], record) && MayPredict(models[j], record, v) ==> (models[j], v) in ok
      ensures (models[i], v) in ok
    {
      v := PredictMember(models[i], record);
      assert old(MayPredict(models[i], record, v));
    }
  }

  /** With at least one member, the ensemble's answer is some member's vote;
      with none it is 0. */
  lemma VoteIsAMemberVote(votes: seq<nat>, c: nat)
    requires IsMostCommon(votes, c)
    ensures votes == [] ==> c == 0
    ensures votes != [] ==> exists i :: 0 <= i < |votes| && votes[i] == c
  {
  }

  /** A prediction held by a strict majority of the members wins. */
  lemma MajorityVoteWins(votes: seq<nat>, v: nat, c: nat)
    requires 2 * Count(votes, v) > |votes|
    requires IsMostCommon(votes, c)
    ensures c == v
  {
    StrictMajorityWins(votes, v, c);
  }

  /** Votes 1, 1 and 0 give 1. */
  lemma TwoOfThree(c: nat)
    requires IsMostCommon([1, 1, 0], c)
    ensures c == 1
  {
    assert multiset([1, 1, 0])[1] == 2;
    StrictMajorityWins([1, 1, 0], 1, c);
  }
}
