/** Gaussian naive Bayes (`models/naive_bayes.rs`): per-class feature means,
    variances and priors learned from the training records, and prediction
    by the class of highest log-posterior. */
module NaiveBayes {
  import opened Common
  import opened Preprocessing
  import opened Tally
  import opened Gini
  import opened Splitting

  /** The constant added to every variance so that it is never zero. */
  const VarianceFloor: real := 0.000000001

  /** What `train` learns for one class. */
  datatype ClassStats = ClassStats(mean: seq<real>, variance: seq<Float>, prior: real)

  /** The records of `data` whose target is `c`, in their order in `data`
      (the vectors that `separated_by_class` collects). */
  function OfClass(data: seq<ProcessedRecord>, c: nat): (rs: seq<ProcessedRecord>)
    ensures |rs| == Count(Targets(data), c)
    ensures forall j :: 0 <= j < |rs| ==> rs[j].target == c
  {
    if data == [] then []
    else
      var init, last := data[..|data| - 1], data[|data| - 1];
      assert Targets(data) == Targets(init) + [last.target];
      OfClass(init, c) + (if last.target == c then [last] else [])
  }

  /** A class's first record has no more features than any other record of
      that class, so reading feature `i < |rs[0].features|` of each record
      is in bounds. */
  predicate FirstIsShortest(rs: seq<ProcessedRecord>) {
    forall j :: 0 <= j < |rs| ==> |rs[0].features| <= |rs[j].features|
  }

  /** What `train` demands of its input: within each class, every record
      has at least the features of that class's first record (the source
      indexes `features[i]` for every `i` below the first record's length
      and panics otherwise). */
  ghost predicate ClassesIndexable(data: seq<ProcessedRecord>) {
    forall c :: c in Targets(data) ==> FirstIsShortest(OfClass(data, c))
  }

  function Sum(xs: seq<real>): real {
    if xs == [] then 0.0 else Sum(xs[..|xs| - 1]) + xs[|xs| - 1]
  }

  function Mean(xs: seq<real>): real
    requires |xs| > 0
  {
    Sum(xs) / |xs| as real
  }

  /** Σ (x - m)² over the elements of `xs`. */
  function SumSquares(xs: seq<real>, m: real): (s: real)
    ensures s >= 0.0
  {
    if xs == [] then 0.0
    else
      var d := xs[|xs| - 1] - m;
      SumSquares(xs[..|xs| - 1], m) + d * d
  }

  /** A single value does not spread around its own mean. */
  lemma SingleSpread(xs: seq<real>)
    ensures |xs| == 1 ==> SumSquares(xs, Mean(xs)) == 0.0
  {
    if |xs| == 1 {
      assert xs[..0] == [];
      assert Sum(xs) == xs[0];
    }
  }

  /** The sample variance Σ(x - mean)²/(n - 1) plus the floor, computed in
      f32: for a single value the division is 0/0, hence NaN, and NaN plus
      the floor stays NaN. */
  function Variance(xs: seq<real>): Float
    requires |xs| > 0
  {
    SingleSpread(xs);
    FloatAdd(Quotient(SumSquares(xs, Mean(xs)), (|xs| - 1) as real), Real(VarianceFloor))
  }

  /** The per-feature means of `rs`, for the first `n` features. */
  function Means(rs: seq<ProcessedRecord>, n: nat): (ms: seq<real>)
    requires rs != [] && HasFeatures(rs, n)
    ensures |ms| == n
  {
    if n == 0 then [] else Means(rs, n - 1) + [Mean(Column(rs, n - 1))]
  }

  lemma {:induction false} MeansAt(rs: seq<ProcessedRecord>, n: nat, i: nat)
    requires rs != [] && HasFeatures(rs, n) && i < n
    ensures Means(rs, n)[i] == Mean(Column(rs, i))
  {
    var init := Means(rs, n - 1);
    assert Means(rs, n) == init + [Mean(Column(rs, n - 1))];
    if i < n - 1 {
      MeansAt(rs, n - 1, i);
      assert Means(rs, n)[i] == init[i];
    }
  }

  /** The per-feature variances of `rs`, for the first `n` features. */
  function Variances(rs: seq<ProcessedRecord>, n: nat): (vs: seq<Float>)
    requires rs != [] && HasFeatures(rs, n)
    ensures |vs| == n
  {
    if n == 0 then [] else Variances(rs, n - 1) + [Variance(Column(rs, n - 1))]
  }

  lemma {:induction false} VariancesAt(rs: seq<ProcessedRecord>, n: nat, i: nat)
    requires rs != [] && HasFeatures(rs, n) && i < n
    ensures Variances(rs, n)[i] == Variance(Column(rs, i))
  {
    var init := Variances(rs, n - 1);
    assert Variances(rs, n) == init + [Variance(Column(rs, n - 1))];
    if i < n - 1 {
      VariancesAt(rs, n - 1, i);
      assert Variances(rs, n)[i] == init[i];
    }
  }

  /** What `train` stores for a class whose records are `rs`, out of
      `total` training records: `rs[0]` fixes the number of features. */
  function Summarize(rs: seq<ProcessedRecord>, total: nat): ClassStats
    requires rs != [] && FirstIsShortest(rs) && total > 0
  {
    var n := |rs[0].features|;
    ClassStats(Means(rs, n), Variances(rs, n), |rs| as real / total as real)
  }

  /** The statistics `train` learns for class `c` of `data`. */
  function StatsFor(data: seq<ProcessedRecord>, c: nat): ClassStats
    requires ClassesIndexable(data) && c in Targets(data)
  {
    Summarize(OfClass(data, c), |data|)
  }

  /** The share of `data` whose target is `c`. */
  function Prior(data: seq<ProcessedRecord>, c: nat): real
    requires data != []
  {
    Count(Targets(data), c) as real / |data| as real
  }

  lemma RatioAtMostOne(a: real, b: real)
    requires 0.0 < a <= b
    ensures 0.0 < a / b <= 1.0
  {
    var r := a / b;
    assert r * b == a;
    MulLeCancel(r, 1.0, b);
    MulLeCancel(r, 0.0, b);
  }

  /** The shape of a class's statistics: one mean and one variance per
      feature of the class's first record, and the class's share of the
      data as prior. */
  lemma StatsShape(data: seq<ProcessedRecord>, c: nat)
    requires ClassesIndexable(data) && c in Targets(data)
    ensures |StatsFor(data, c).mean| == |OfClass(data, c)[0].features|
    ensures |StatsFor(data, c).variance| == |OfClass(data, c)[0].features|
    ensures StatsFor(data, c).prior == Prior(data, c)
    ensures 0.0 < StatsFor(data, c).prior <= 1.0
  {
    CountAtMostLength(Targets(data), c);
    RatioAtMostOne(Count(Targets(data), c) as real, |data| as real);
  }

  /** The variance of two or more values is the sample variance
      Σ(x - mean)²/(n - 1) plus the floor, so at least the floor; that of a
      single value is NaN. */
  lemma VarianceLaws(xs: seq<real>)
    requires |xs| > 0
    ensures |xs| == 1 ==> Variance(xs).NaN?
    ensures |xs| >= 2 ==>
      Variance(xs) == Real(SumSquares(xs, Mean(xs)) / (|xs| - 1) as real + VarianceFloor)
    ensures |xs| >= 2 ==> Variance(xs).Real? && Variance(xs).value >= VarianceFloor
  {
    if |xs| >= 2 {
      DivNonneg(SumSquares(xs, Mean(xs)), (|xs| - 1) as real);
    }
  }

  /** Every variance `train` stores for a class of at least two records is
      at least the floor; every one stored for a class of one record is NaN. */
  lemma ClassVariances(data: seq<ProcessedRecord>, c: nat, i: nat)
    requires ClassesIndexable(data) && c in Targets(data)
    requires i < |StatsFor(data, c).variance|
    ensures Count(Targets(data), c) >= 2 ==>
      StatsFor(data, c).variance[i].Real? && StatsFor(data, c).variance[i].value >= VarianceFloor
    ensures Count(Targets(data), c) == 1 ==> StatsFor(data, c).variance[i].NaN?
  {
    var rs := OfClass(data, c);
    VariancesAt(rs, |rs[0].features|, i);
    VarianceLaws(Column(rs, i));
  }

  /** The distinct labels of `labels`, each once, in order of first
      occurrence (the keys of `separated_by_class`). */
  function DistinctClasses(labels: seq<nat>): (cs: seq<nat>)
    ensures forall c :: Count(cs, c) == if c in labels then 1 else 0
  {
    if labels == [] then []
    else
      var init, last := labels[..|labels| - 1], labels[|labels| - 1];
      assert labels == init + [last];
      var cs := DistinctClasses(init);
      if last in cs then cs
      else
        assert forall c :: Count(cs + [last], c) == Count(cs, c) + (if c == last then 1 else 0) by {
          forall c { CountSnoc(cs, last, c); }
        }
        cs + [last]
  }

  /** Σ over the labels `c` of `cs` of `Count(labels, c)`. */
  function SumCounts(labels: seq<nat>, cs: seq<nat>): nat {
    if cs == [] then 0 else SumCounts(labels, cs[..|cs| - 1]) + Count(labels, cs[|cs| - 1])
  }

  lemma {:induction false} SumCountsSnoc(labels: seq<nat>, l: nat, cs: seq<nat>)
    ensures SumCounts(labels + [l], cs) == SumCounts(labels, cs) + Count(cs, l)
  {
    if cs != [] {
      var init, x := cs[..|cs| - 1], cs[|cs| - 1];
      assert cs == init + [x];
      SumCountsSnoc(labels, l, init);
      CountSnoc(labels, l, x);
      CountSnoc(init, x, l);
    }
  }

  /** Counting every distinct label once counts every position once. */
  lemma {:induction false} CountsSumToLength(labels: seq<nat>)
    ensures SumCounts(labels, DistinctClasses(labels)) == |labels|
  {
    if labels != [] {
      var init, l := labels[..|labels| - 1], labels[|labels| - 1];
      assert labels == init + [l];
      var d := DistinctClasses(init);
      CountsSumToLength(init);
      SumCountsSnoc(init, l, d);
      if l !in d {
        assert (d + [l])[..|d|] == d;
        CountSnoc(init, l, l);
      }
    }
  }

  /** Σ over the labels `c` of `cs` of `Prior(data, c)`. */
  function PriorSum(data: seq<ProcessedRecord>, cs: seq<nat>): real
    requires data != []
  {
    if cs == [] then 0.0 else PriorSum(data, cs[..|cs| - 1]) + Prior(data, cs[|cs| - 1])
  }

  lemma {:induction false} PriorSumRatio(data: seq<ProcessedRecord>, cs: seq<nat>)
    requires data != []
    ensures PriorSum(data, cs) == SumCounts(Targets(data), cs) as real / |data| as real
  {
    if cs != [] {
      var init := cs[..|cs| - 1];
      PriorSumRatio(data, init);
      AddRatios(SumCounts(Targets(data), init) as real, Count(Targets(data), cs[|cs| - 1]) as real, |data| as real);
    }
  }

  /** The priors of the classes `train` finds in non-empty data sum to one,
      and those classes are exactly the classes present. */
  lemma PriorsSumToOne(data: seq<ProcessedRecord>)
    requires data != []
    ensures forall c :: c in DistinctClasses(Targets(data)) <==> c in Classes(Targets(data))
    ensures PriorSum(data, DistinctClasses(Targets(data))) == 1.0
  {
    forall c ensures c in DistinctClasses(Targets(data)) <==> c in Classes(Targets(data)) {
      DistinctAreClasses(Targets(data), c);
    }
    var labels := Targets(data);
    var d := DistinctClasses(labels);
    var sc := SumCounts(labels, d);
    var n := |data| as real;
    assert sc == |data| by {
      CountsSumToLength(labels);
    }
    assert PriorSum(data, d) == sc as real / n by {
      PriorSumRatio(data, d);
    }
    assert sc as real == n;
    DivSelf(n);
  }

  /** The labels `DistinctClasses` lists are exactly the classes present. */
  lemma DistinctAreClasses(labels: seq<nat>, c: nat)
    ensures c in DistinctClasses(labels) <==> c in Classes(labels)
  {
    assert Count(DistinctClasses(labels), c) == if c in labels then 1 else 0;
  }

  /** Appending a record extends its class and the targets. */
  lemma Append(data: seq<ProcessedRecord>, r: ProcessedRecord)
    ensures Targets(data + [r]) == Targets(data) + [r.target]
    ensures forall c :: OfClass(data + [r], c) == OfClass(data, c) + if r.target == c then [r] else []
  {
    assert (data + [r])[..|data|] == data;
  }

  /** `separated` maps each class of `data` to its records. */
  ghost predicate Separated(separated: map<nat, seq<ProcessedRecord>>, data: seq<ProcessedRecord>) {
    separated.Keys == Classes(Targets(data)) &&
    forall c :: c in separated ==> separated[c] == OfClass(data, c)
  }

  /** The vector of class `r.target` with `r` pushed onto it. */
  function Push(separated: map<nat, seq<ProcessedRecord>>, r: ProcessedRecord): map<nat, seq<ProcessedRecord>> {
    separated[r.target := (if r.target in separated then separated[r.target] else []) + [r]]
  }

  /** One step of the first loop of `train`: pushing record `r` onto the
      vector of its class. */
  lemma SeparateStep(separated: map<nat, seq<ProcessedRecord>>, data: seq<ProcessedRecord>, r: ProcessedRecord)
    requires Separated(separated, data)
    ensures Separated(Push(separated, r), data + [r])
  {
    var next := Push(separated, r);
    assert next.Keys == Classes(Targets(data + [r])) by {
      Append(data, r);
      ClassesSnoc(Targets(data), r.target);
    }
    forall c | c in next
      ensures next[c] == OfClass(data + [r], c)
    {
      PushedVector(separated, data, r, c);
    }
  }

  lemma PushedVector(separated: map<nat, seq<ProcessedRecord>>, data: seq<ProcessedRecord>, r: ProcessedRecord, c: nat)
    requires Separated(separated, data) && c in Push(separated, r)
    ensures Push(separated, r)[c] == OfClass(data + [r], c)
  {
    Append(data, r);
    if c != r.target {
      assert Push(separated, r)[c] == separated[c];
    } else if c !in separated {
      assert c !in Targets(data);
      assert OfClass(data, c) == [];
    }
  }

  lemma ClassesSnoc(labels: seq<nat>, l: nat)
    ensures Classes(labels + [l]) == Classes(labels) + {l}
  {
  }

  /** The first loop of `train`: the records of each class, in data order. */
  method SeparateByClass(data: seq<ProcessedRecord>) returns (separated: map<nat, seq<ProcessedRecord>>)
    ensures separated.Keys == Classes(Targets(data))
    ensures forall c :: c in separated ==> separated[c] == OfClass(data, c)
  {
    separated := map[];
    for j := 0 to |data|
      invariant Separated(separated, data[..j])
    {
      var record := data[j];
      assert data[..j + 1] == data[..j] + [record];
      SeparateStep(separated, data[..j], record);
      separated := Push(separated, record);
    }
    assert data[..|data|] == data;
  }

  /** Every class vector is non-empty and indexable. */
  ghost predicate Summarizable(separated: map<nat, seq<ProcessedRecord>>) {
    forall c :: c in separated ==> separated[c] != [] && FirstIsShortest(separated[c])
  }

  /** The vectors of `separated_by_class` can be summarized, and their
      summaries are the statistics of their classes. */
  lemma SeparatedSummaries(separated: map<nat, seq<ProcessedRecord>>, data: seq<ProcessedRecord>)
    requires ClassesIndexable(data) && Separated(separated, data) && data != []
    ensures Summarizable(separated)
    ensures forall c :: c in Targets(data) ==> c in separated && StatsFor(data, c) == Summarize(separated[c], |data|)
  {
    forall c | c in separated
      ensures separated[c] != [] && FirstIsShortest(separated[c])
    {
      assert c in Targets(data);
      assert multiset(Targets(data))[c] > 0;
    }
  }

  /** The body of the loop over classes in `train`: the prior, then the
      mean and variance of each feature of the class's first record. */
  method SummarizeClass(rs: seq<ProcessedRecord>, total: nat) returns (stats: ClassStats)
    requires rs != [] && FirstIsShortest(rs) && total > 0
    ensures stats == Summarize(rs, total)
  {
    var numFeatures := |rs[0].features|;
    var prior := |rs| as real / total as real;
    var means: seq<real> := [];
    var variances: seq<Float> := [];
    for i := 0 to numFeatures
      invariant means == Means(rs, i)
      invariant variances == Variances(rs, i)
    {
      var featureValues := Column(rs, i);
      var mean := Sum(featureValues) / |featureValues| as real;
      means := means + [mean];
      variances := variances + [Variance(featureValues)];
    }
    stats := ClassStats(means, variances, prior);
  }

  /** `c` is the class `predict` may return for the per-class scores
      `scores`: 0 when no class has a number as score, otherwise a class
      whose score is a number no smaller than any other class's. */
  ghost predicate IsBestClass(scores: map<nat, Float>, c: nat) {
    if forall k :: k in scores ==> scores[k].NaN? then c == 0
    else
      c in scores && scores[c].Real? &&
      forall k :: k in scores && scores[k].Real? ==> scores[k].value <= scores[c].value
  }

  /** A class scoring strictly above every other is the one predicted. */
  lemma StrictlyBestIsPredicted(scores: map<nat, Float>, best: nat, c: nat)
    requires best in scores && scores[best].Real?
    requires forall k :: k in scores && k != best && scores[k].Real? ==> scores[k].value < scores[best].value
    requires IsBestClass(scores, c)
    ensures c == best
  {
  }

  class GaussianNB {
    var stats: map<nat, ClassStats>
    /** `prior.ln()`. */
    const logPrior: real -> real
    /** `(calculate_likelihood(x, mean, variance) + 1e-10).ln()` for a
        variance that is a number: the log of the Gaussian density at `x`,
        left abstract. */
    const logLikelihood: (real, real, real) -> real

    constructor(logPrior: real -> real, logLikelihood: (real, real, real) -> real)
      ensures stats == map[]
      ensures this.logPrior == logPrior && this.logLikelihood == logLikelihood
    {
      stats := map[];
      this.logPrior := logPrior;
      this.logLikelihood := logLikelihood;
    }

    /** The log-likelihood term of feature value `x`: NaN when the variance
        is NaN, as every f32 operation on NaN gives NaN. */
    function Term(x: real, mean: real, variance: Float): Float {
      if variance.NaN? then NaN else Real(logLikelihood(x, mean, variance.value))
    }

    /** The log-posterior of a class after its first `n` features. */
    function Posterior(s: ClassStats, x: seq<real>, n: nat): Float
      requires n <= |x| && n <= |s.mean| && n <= |s.variance|
    {
      if n == 0 then Real(logPrior(s.prior))
      else FloatAdd(Posterior(s, x, n - 1), Term(x[n - 1], s.mean[n - 1], s.variance[n - 1]))
    }

    /** A class's log-posterior is NaN exactly when one of the variances it
        reads is NaN. */
    lemma {:induction false} PosteriorNaN(s: ClassStats, x: seq<real>, n: nat)
      requires n <= |x| && n <= |s.mean| && n <= |s.variance|
      ensures Posterior(s, x, n).NaN? <==> exists i :: 0 <= i < n && s.variance[i].NaN?
    {
      if n > 0 {
        PosteriorNaN(s, x, n - 1);
        if s.variance[n - 1].NaN? {
          assert Posterior(s, x, n).NaN?;
        }
      }
    }

    /** Every class has a mean and a variance for each feature of `x`. */
    ghost predicate Fits(x: seq<real>)
      reads this
    {
      forall k :: k in stats ==> |x| <= |stats[k].mean| && |x| <= |stats[k].variance|
    }

    /** The log-posterior of every class for feature vector `x`. */
    ghost function Scores(x: seq<real>): map<nat, Float>
      reads this
      requires Fits(x)
    {
      map k | k in stats :: Posterior(stats[k], x, |x|)
    }

    /** `train`: nothing on empty data; otherwise the statistics of every
        class of `data` are (re)computed and stored, and the entries of
        classes absent from `data` are kept. */
    method Train(data: seq<ProcessedRecord>)
      modifies this
      requires ClassesIndexable(data)
      ensures data == [] ==> stats == old(stats)
      ensures stats.Keys == old(stats).Keys + Classes(Targets(data))
      ensures forall c :: c in Targets(data) ==> c in stats && stats[c] == StatsFor(data, c)
      ensures forall c :: c in old(stats) && c !in Targets(data) ==> stats[c] == old(stats)[c]
    {
      if data == [] {
        return;
      }
      var separated := SeparateByClass(data);
      SeparatedSummaries(separated, data);
      StoreClasses(separated, |data|);
    }

    /** The loop over classes of `train`, visiting them in an unspecified
        order: the summary of each class's records is stored under it. */
    method StoreClasses(separated: map<nat, seq<ProcessedRecord>>, total: nat)
      modifies this
      requires total > 0 && Summarizable(separated)
      ensures stats.Keys == old(stats).Keys + separated.Keys
      ensures forall c :: c in separated ==> stats[c] == Summarize(separated[c], total)
      ensures forall c :: c in old(stats) && c !in separated ==> stats[c] == old(stats)[c]
    {
      var remaining := separated.Keys;
      ghost var done: set<nat> := {};
      while remaining != {}
        invariant remaining !! done && remaining + done == separated.Keys
        invariant stats.Keys == old(stats).Keys + done
        invariant forall c :: c in done ==> stats[c] == Summarize(separated[c], total)
        invariant forall c :: c in old(stats) && c !in done ==> stats[c] == old(stats)[c]
        decreases remaining
      {
        var c :| c in remaining;
        var classStats := SummarizeClass(separated[c], total);
        stats := stats[c := classStats];
        remaining := remaining - {c};
        done := done + {c};
      }
    }

    /** The log-posterior of class statistics `s` for feature vector `x`:
        the inner loop of `predict`. */
    method ClassPosterior(s: ClassStats, x: seq<real>) returns (posterior: Float)
      requires |x| <= |s.mean| && |x| <= |s.variance|
      ensures posterior == Posterior(s, x, |x|)
    {
      posterior := Real(logPrior(s.prior));
      for i := 0 to |x|
        invariant posterior == Posterior(s, x, i)
      {
        posterior := FloatAdd(posterior, Term(x[i], s.mean[i], s.variance[i]));
      }
    }

    /** `predict`: the classes are visited in an unspecified order and a
        class replaces the best so far only on a strictly greater score, so
        the result is some class of maximal score (NaN scores never win),
        or 0 when no class has a score that is a number. */
    method Predict(record: ProcessedRecord) returns (best: nat)
      requires Fits(record.features)
      ensures IsBestClass(Scores(record.features), best)
    {
      ghost var scores := Scores(record.features);
      best := 0;
      var maxPosterior: Option<real> := None;
      var remaining := stats.Keys;
      while remaining != {}
        invariant remaining <= stats.Keys
        invariant maxPosterior.None? ==>
          best == 0 && forall k :: k in stats && k !in remaining ==> scores[k].NaN?
        invariant maxPosterior.Some? ==>
          best in stats && scores[best] == Real(maxPosterior.value) &&
          forall k :: k in stats && k !in remaining && scores[k].Real? ==> scores[k].value <= maxPosterior.value
        decreases remaining
      {
        var c :| c in remaining;
        var posterior := ClassPosterior(stats[c], record.features);
        if posterior.Real? && (maxPosterior.None? || posterior.value > maxPosterior.value) {
          maxPosterior := Some(posterior.value);
          best := c;
        }
        remaining := remaining - {c};
      }
    }
  }
}
