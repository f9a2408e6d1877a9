/** Model evaluation (`evaluation.rs`): the confusion counts of a predictor
    on test records and the accuracy, precision, recall and F1 score derived
    from them. */
module Evaluation {
  import opened Common
  import opened Preprocessing
  import opened Gini

  /** `Metrics`. Accuracy is a `Float` because empty test data makes it
      0/0, which is NaN in f32. */
  datatype Metrics = Metrics(accuracy: Float, precision: real, recall: real, f1Score: real)

  /** The four counters `(tp, tn, fp, fn_)`. */
  datatype Confusion = Confusion(tp: nat, tn: nat, fp: nat, fn: nat)

  function Total(c: Confusion): nat {
    c.tp + c.tn + c.fp + c.fn
  }

  /** The (prediction, target) pair of every test record, in order. */
  function Outcomes(predict: ProcessedRecord -> nat, data: seq<ProcessedRecord>): (pairs: seq<(nat, nat)>)
    ensures |pairs| == |data|
  {
    if data == [] then []
    else Outcomes(predict, data[..|data| - 1]) + [(predict(data[|data| - 1]), data[|data| - 1].target)]
  }

  lemma {:induction false} OutcomesAt(predict: ProcessedRecord -> nat, data: seq<ProcessedRecord>, i: nat)
    requires i < |data|
    ensures Outcomes(predict, data)[i] == (predict(data[i]), data[i].target)
  {
    var init := data[..|data| - 1];
    assert Outcomes(predict, data) == Outcomes(predict, init) + [(predict(data[|data| - 1]), data[|data| - 1].target)];
    if i < |data| - 1 {
      OutcomesAt(predict, init, i);
      assert data[i] == init[i];
    }
  }

  lemma OutcomesSnoc(predict: ProcessedRecord -> nat, data: seq<ProcessedRecord>, i: nat)
    requires i < |data|
    ensures Outcomes(predict, data[..i + 1]) == Outcomes(predict, data[..i]) + [(predict(data[i]), data[i].target)]
  {
    assert data[..i + 1][..i] == data[..i];
  }

  /** The counters as a census of the outcome pairs: `tp` is the number of
      (1, 1) pairs, `tn` of (0, 0), `fp` of (1, 0) and `fn` of (0, 1). */
  function Tally(pairs: seq<(nat, nat)>): Confusion {
    var m := multiset(pairs);
    Confusion(m[(1, 1)], m[(0, 0)], m[(1, 0)], m[(0, 1)])
  }

  /** One more pair adds one to the counter of its kind, and nothing when
      it is of none of the four kinds. */
  lemma TallySnoc(pairs: seq<(nat, nat)>, x: (nat, nat))
    ensures Tally(pairs + [x]).tp == Tally(pairs).tp + (if x == (1, 1) then 1 else 0)
    ensures Tally(pairs + [x]).tn == Tally(pairs).tn + (if x == (0, 0) then 1 else 0)
    ensures Tally(pairs + [x]).fp == Tally(pairs).fp + (if x == (1, 0) then 1 else 0)
    ensures Tally(pairs + [x]).fn == Tally(pairs).fn + (if x == (0, 1) then 1 else 0)
  {
    assert multiset(pairs + [x]) == multiset(pairs) + multiset{x};
  }

  /** Each pair is counted at most once, and exactly once when prediction
      and target are both 0 or 1. */
  lemma {:induction false} TallyTotal(pairs: seq<(nat, nat)>)
    ensures Total(Tally(pairs)) <= |pairs|
    ensures (forall i :: 0 <= i < |pairs| ==> pairs[i].0 <= 1 && pairs[i].1 <= 1) ==> Total(Tally(pairs)) == |pairs|
  {
    if pairs != [] {
      var init, x := pairs[..|pairs| - 1], pairs[|pairs| - 1];
      assert pairs == init + [x];
      TallyTotal(init);
      TallySnoc(init, x);
      if forall i :: 0 <= i < |pairs| ==> pairs[i].0 <= 1 && pairs[i].1 <= 1 {
        assert forall i :: 0 <= i < |init| ==> init[i] == pairs[i];
      }
    }
  }

  /** `k / (k + others)`, or 0 when both are zero: precision is
      `Share(tp, fp)` and recall is `Share(tp, fn)`. */
  function Share(k: nat, others: nat): real {
    if k + others > 0 then k as real / (k + others) as real else 0.0
  }

  /** `2pr / (p + r)`, or 0 when `p + r` is not positive. */
  function F1(p: real, r: real): real {
    if p + r > 0.0 then 2.0 * (p * r) / (p + r) else 0.0
  }

  /** `(tp + tn) / n` in f32: NaN on no records. */
  function Accuracy(c: Confusion, n: nat): Float
    requires c.tp + c.tn <= n
  {
    Quotient((c.tp + c.tn) as real, n as real)
  }

  /** The metrics of counters `c` over `n` test records. */
  function MetricsOf(c: Confusion, n: nat): Metrics
    requires c.tp + c.tn <= n
  {
    var precision := Share(c.tp, c.fp);
    var recall := Share(c.tp, c.fn);
    Metrics(Accuracy(c, n), precision, recall, F1(precision, recall))
  }

  /** `calculate_metrics`: one prediction per test record, in order, each
      adding to at most one counter; then the metrics. */
  method CalculateMetrics(predict: ProcessedRecord -> nat, testData: seq<ProcessedRecord>)
      returns (metrics: Metrics, counts: Confusion)
    ensures counts == Tally(Outcomes(predict, testData))
    ensures Total(counts) <= |testData|
    ensures metrics == MetricsOf(counts, |testData|)
  {
    var tp, tn, fp, fn := 0, 0, 0, 0;
    for i := 0 to |testData|
      invariant Confusion(tp, tn, fp, fn) == Tally(Outcomes(predict, testData[..i]))
    {
      var prediction := predict(testData[i]);
      OutcomesSnoc(predict, testData, i);
      TallySnoc(Outcomes(predict, testData[..i]), (prediction, testData[i].target));
      match (prediction, testData[i].target)
      case (1, 1) => tp := tp + 1;
      case (0, 0) => tn := tn + 1;
      case (1, 0) => fp := fp + 1;
      case (0, 1) => fn := fn + 1;
      case _ =>
    }
    assert testData[..|testData|] == testData;
    counts := Confusion(tp, tn, fp, fn);
    TallyTotal(Outcomes(predict, testData));
    metrics := MetricsOf(counts, |testData|);
  }

  /** Accuracy is NaN exactly on empty test data; otherwise it is the
      fraction of records counted as correct, in [0, 1]. */
  lemma AccuracyLaws(c: Confusion, n: nat)
    requires c.tp + c.tn <= n
    ensures Accuracy(c, n).NaN? <==> n == 0
    ensures Accuracy(c, n).Real? ==>
      Accuracy(c, n).value * n as real == (c.tp + c.tn) as real &&
      0.0 <= Accuracy(c, n).value <= 1.0
  {
    if n > 0 {
      var a, t := Accuracy(c, n).value, n as real;
      assert a * t == (c.tp + c.tn) as real;
      assert (c.tp + c.tn) as real <= t;
      MulLeCancel(a, 1.0, t);
      MulLeCancel(0.0, a, t);
    }
  }

  /** A share lies in [0, 1]; it is 0 exactly when `k` is 0 and 1 exactly
      when `k` is positive and `others` is 0; when defined it is the
      fraction `k / (k + others)`. */
  lemma ShareLaws(k: nat, others: nat)
    ensures 0.0 <= Share(k, others) <= 1.0
    ensures Share(k, others) == 0.0 <==> k == 0
    ensures Share(k, others) == 1.0 <==> k > 0 && others == 0
    ensures k + others > 0 ==> Share(k, others) * (k + others) as real == k as real
  {
    if k + others > 0 {
      var s, t := Share(k, others), (k + others) as real;
      DivMulCancel(k as real, t);
      assert s * t == k as real;
      MulLeCancel(s, 1.0, t);
      MulLeCancel(0.0, s, t);
      MulLeCancel(1.0, s, t);
    }
  }

  /** With both operands in [0, 1], F1 is their harmonic mean: it lies
      between the smaller and the larger, and is 0 exactly when one of
      them is. */
  lemma F1Laws(p: real, r: real)
    requires 0.0 <= p <= 1.0 && 0.0 <= r <= 1.0
    ensures (if p <= r then p else r) <= F1(p, r) <= (if p <= r then r else p)
    ensures 0.0 <= F1(p, r) <= 1.0
    ensures F1(p, r) == 0.0 <==> p == 0.0 || r == 0.0
  {
    if p + r > 0.0 {
      var f, s, q := F1(p, r), p + r, p * r;
      HarmonicCross(p, r, f);
      MulZero(p, r);
      if q == 0.0 {
        MulCancel(f, 0.0, s);
      }
      if p <= r {
        HarmonicBetween(p, r, f);
      } else {
        HarmonicBetween(r, p, f);
      }
    }
  }

  /** `f` times `p + r` is `2pr`. */
  lemma HarmonicCross(p: real, r: real, f: real)
    requires p + r > 0.0 && f == F1(p, r)
    ensures f * (p + r) == 2.0 * (p * r)
  {
    DivMulCancel(2.0 * (p * r), p + r);
  }

  /** A number whose product with `lo + hi` is `2 lo hi` lies between `lo`
      and `hi`. */
  lemma HarmonicBetween(lo: real, hi: real, f: real)
    requires 0.0 <= lo <= hi && lo + hi > 0.0
    requires f * (lo + hi) == 2.0 * (lo * hi)
    ensures lo <= f <= hi
  {
    var s := lo + hi;
    var ll, lh, hh := lo * lo, lo * hi, hi * hi;
    assert lo * s == ll + lh;
    assert hi * s == lh + hh;
    assert ll <= lh by {
      MulNonneg(lo, hi - lo);
      assert lo * (hi - lo) == lh - ll;
    }
    assert lh <= hh by {
      MulNonneg(hi, hi - lo);
      assert hi * (hi - lo) == hh - lh;
    }
    assert lo * s <= f * s;
    assert f * s <= hi * s;
    MulLeCancel(lo, f, s);
    MulLeCancel(f, hi, s);
  }

  lemma MulZero(p: real, r: real)
    requires p >= 0.0 && r >= 0.0
    ensures p * r == 0.0 <==> p == 0.0 || r == 0.0
  {
    if p > 0.0 && r > 0.0 {
      MulLeCancel(0.0, r, p);
      assert p * r > 0.0 by {
        if p * r <= 0.0 {
          MulLeCancel(r, 0.0, p);
        }
      }
    }
  }

  /** The metrics of any counters over at least as many records: accuracy
      as `AccuracyLaws` says, and precision, recall and F1 in [0, 1], with
      F1 zero exactly when there is no true positive. */
  lemma MetricsInUnitRange(c: Confusion, n: nat)
    requires c.tp + c.tn <= n
    ensures MetricsOf(c, n).accuracy.Real? ==> 0.0 <= MetricsOf(c, n).accuracy.value <= 1.0
    ensures 0.0 <= MetricsOf(c, n).precision <= 1.0
    ensures 0.0 <= MetricsOf(c, n).recall <= 1.0
    ensures 0.0 <= MetricsOf(c, n).f1Score <= 1.0
    ensures MetricsOf(c, n).f1Score == 0.0 <==> c.tp == 0
  {
    AccuracyLaws(c, n);
    ShareLaws(c.tp, c.fp);
    ShareLaws(c.tp, c.fn);
    F1Laws(Share(c.tp, c.fp), Share(c.tp, c.fn));
  }

  /** With a true positive, F1 is `2tp / (2tp + fp + fn)`. */
  lemma F1FromCounts(c: Confusion, n: nat)
    requires c.tp + c.tn <= n && c.tp > 0
    ensures MetricsOf(c, n).f1Score == (2 * c.tp) as real / (2 * c.tp + c.fp + c.fn) as real
  {
    var a, b, d := c.tp as real, (c.tp + c.fp) as real, (c.tp + c.fn) as real;
    var p, r := Share(c.tp, c.fp), Share(c.tp, c.fn);
    ShareLaws(c.tp, c.fp);
    ShareLaws(c.tp, c.fn);
    assert p * b == a && r * d == a;
    assert p > 0.0 && r > 0.0;
    HarmonicOfRatios(a, b, d, p, r, F1(p, r));
  }

  /** The harmonic mean of `a/b` and `a/d` is `2a / (b + d)`. */
  lemma HarmonicOfRatios(a: real, b: real, d: real, p: real, r: real, f: real)
    requires a > 0.0 && b > 0.0 && d > 0.0 && p > 0.0 && r > 0.0
    requires p * b == a && r * d == a
    requires f == F1(p, r)
    ensures f == (2.0 * a) / (b + d)
  {
    HarmonicCross(p, r, f);
    assert p * r * b == r * a;
    assert p * r * d == p * a;
    assert f * (p + r) * (b + d) == 2.0 * (p * r) * (b + d);
    assert 2.0 * (p * r) * (b + d) == 2.0 * a * (p + r);
    assert (f * (b + d)) * (p + r) == (2.0 * a) * (p + r);
    MulCancel(f * (b + d), 2.0 * a, p + r);
    DivBy(f, 2.0 * a, b + d);
  }

  lemma MulCancel(x: real, y: real, t: real)
    requires t > 0.0 && x * t == y * t
    ensures x == y
  {
    MulLeCancel(x, y, t);
    MulLeCancel(y, x, t);
  }

  /** Targets [1, 0, 1, 0] predicted as [1, 0, 0, 1]: each counter is 1 and
      every metric is 0.5. */
  lemma OneOfEach()
    ensures Tally([(1, 1), (0, 0), (0, 1), (1, 0)]) == Confusion(1, 1, 1, 1)
    ensures MetricsOf(Confusion(1, 1, 1, 1), 4) == Metrics(Real(0.5), 0.5, 0.5, 0.5)
  {
    var pairs: seq<(nat, nat)> := [(1, 1), (0, 0), (0, 1), (1, 0)];
    assert multiset(pairs) == multiset{(1, 1), (0, 0), (0, 1), (1, 0)};
  }

  /** `n` copies of the pair (0, 1): a predictor that always answers 0 on
      test records that are all positive. */
  function Misses(n: nat): (pairs: seq<(nat, nat)>)
    ensures |pairs| == n
  {
    if n == 0 then [] else Misses(n - 1) + [(0, 1)]
  }

  /** Such a predictor has only false negatives. */
  lemma {:induction false} AlwaysNegative(n: nat)
    ensures Tally(Misses(n)) == Confusion(0, 0, 0, n)
  {
    if n > 0 {
      AlwaysNegative(n - 1);
      TallySnoc(Misses(n - 1), (0, 1));
    }
  }

  /** A predictor that always answers 0, on test records that are all
      positive, produces exactly the misses: so `calculate_metrics` counts
      only false negatives for it, and every metric is 0. */
  lemma {:induction false} AlwaysZeroOnPositives(predict: ProcessedRecord -> nat, data: seq<ProcessedRecord>)
    requires forall r :: predict(r) == 0
    requires forall i :: 0 <= i < |data| ==> data[i].target == 1
    ensures Outcomes(predict, data) == Misses(|data|)
    ensures Tally(Outcomes(predict, data)) == Confusion(0, 0, 0, |data|)
    ensures data != [] ==> MetricsOf(Tally(Outcomes(predict, data)), |data|) == Metrics(Real(0.0), 0.0, 0.0, 0.0)
  {
    if data != [] {
      AlwaysZeroOnPositives(predict, data[..|data| - 1]);
      OnlyMissesScoreZero(|data|);
    }
    AlwaysNegative(|data|);
  }

  /** Only false negatives make every metric 0 (accuracy a real 0, there
      being at least one record). */
  lemma OnlyMissesScoreZero(n: nat)
    requires n > 0
    ensures MetricsOf(Confusion(0, 0, 0, n), n) == Metrics(Real(0.0), 0.0, 0.0, 0.0)
  {
    assert Share(0, n) == 0.0;
    assert Share(0, 0) == 0.0;
  }
}
