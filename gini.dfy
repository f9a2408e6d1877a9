/** Gini impurity of a collection of records (`calculate_gini` and
    `calculate_split_gini` of the decision tree). */
module Gini {
  import opened Common
  import opened Tally
  import opened Preprocessing

  /** The targets of `data`, in order. */
  function Targets(data: seq<ProcessedRecord>): (ls: seq<nat>)
    ensures |ls| == |data|
    ensures forall i :: 0 <= i < |data| ==> ls[i] == data[i].target
  {
    if data == [] then [] else Targets(data[..|data| - 1]) + [data[|data| - 1].target]
  }

  /** Σ over the elements `x` of `part` of `Count(all, x)`: with `part == all`
      the number of ordered pairs of positions holding equal labels. */
  function SamePairs(all: seq<nat>, part: seq<nat>): nat {
    if part == [] then 0 else SamePairs(all, part[..|part| - 1]) + Count(all, part[|part| - 1])
  }

  /** Reference definition of the Gini impurity: the probability that two
      labels drawn independently from `labels` differ, i.e. 1 - Σ p_c² over
      the classes `c`; 0 for no labels. */
  function Gini(labels: seq<nat>): real {
    if |labels| == 0 then 0.0
    else 1.0 - ((SamePairs(labels, labels) as real) / (|labels| as real)) / (|labels| as real)
  }

  /** `SamePairs` restricted to the elements of `part` that lie in `s`. */
  function PairsIn(all: seq<nat>, part: seq<nat>, s: set<nat>): nat {
    if part == [] then 0
    else PairsIn(all, part[..|part| - 1], s) + (if part[|part| - 1] in s then Count(all, part[|part| - 1]) else 0)
  }

  /** Number of elements of `part` that lie in `s`. */
  function CountIn(part: seq<nat>, s: set<nat>): nat {
    if part == [] then 0 else CountIn(part[..|part| - 1], s) + (if part[|part| - 1] in s then 1 else 0)
  }

  lemma CountSnoc(part: seq<nat>, x: nat, k: nat)
    ensures Count(part + [x], k) == Count(part, k) + (if x == k then 1 else 0)
  {
    assert multiset(part + [x]) == multiset(part) + multiset{x};
  }

  lemma {:induction false} CountAtMostLength(labels: seq<nat>, k: nat)
    ensures Count(labels, k) <= |labels|
  {
    if labels != [] {
      var init := labels[..|labels| - 1];
      assert labels == init + [labels[|labels| - 1]];
      CountAtMostLength(init, k);
      CountSnoc(init, labels[|labels| - 1], k);
    }
  }

  lemma MulSucc(a: int, b: int)
    ensures (a + 1) * b == a * b + b
  {
  }

  /** Adding a class `k` to `s` adds `Count(part, k) * Count(all, k)` pairs. */
  lemma {:induction false} PairsInAdd(all: seq<nat>, part: seq<nat>, s: set<nat>, k: nat)
    requires k !in s
    ensures PairsIn(all, part, s + {k}) == PairsIn(all, part, s) + Count(part, k) * Count(all, k)
  {
    if part == [] {
      assert Count(part, k) == 0;
    } else {
      var init := part[..|part| - 1];
      var x := part[|part| - 1];
      assert part == init + [x];
      PairsInAdd(all, init, s, k);
      CountSnoc(init, x, k);
      var a, b := Count(init, k), Count(all, k);
      if x == k {
        assert Count(part, k) == a + 1;
        MulSucc(a, b);
      } else {
        assert Count(part, k) == a;
      }
    }
  }

  /** `PairsInAdd` for the pairs of a sequence with itself, with the count named. */
  lemma PairsInAddSquare(all: seq<nat>, s: set<nat>, c: nat, m: nat)
    requires c !in s && m == Count(all, c)
    ensures PairsIn(all, all, s + {c}) == PairsIn(all, all, s) + m * m
  {
    PairsInAdd(all, all, s, c);
  }

  /** Adding a class `k` to `s` adds its occurrences. */
  lemma {:induction false} CountInAdd(part: seq<nat>, s: set<nat>, k: nat)
    requires k !in s
    ensures CountIn(part, s + {k}) == CountIn(part, s) + Count(part, k)
  {
    if part != [] {
      var init := part[..|part| - 1];
      var x := part[|part| - 1];
      assert part == init + [x];
      CountInAdd(init, s, k);
      CountSnoc(init, x, k);
    }
  }

  lemma {:induction false} NothingIn(all: seq<nat>, part: seq<nat>)
    ensures PairsIn(all, part, {}) == 0 && CountIn(part, {}) == 0
  {
    if part != [] {
      NothingIn(all, part[..|part| - 1]);
    }
  }

  /** When `s` holds every element of `part`, the restriction changes nothing. */
  lemma {:induction false} EverythingIn(all: seq<nat>, part: seq<nat>, s: set<nat>)
    requires forall i :: 0 <= i < |part| ==> part[i] in s
    ensures PairsIn(all, part, s) == SamePairs(all, part)
    ensures CountIn(part, s) == |part|
  {
    if part != [] {
      EverythingIn(all, part[..|part| - 1], s);
    }
  }

  /** One step of the Cauchy-Schwarz induction below, over the integers:
      m·d ≥ (n - m·x)² for the difference d of the two sides. */
  lemma CauchyStep(m: int, p: int, n: int, x: int)
    requires m >= 1 && m * p >= n * n
    ensures (m + 1) * (p + x * x) >= (n + x) * (n + x)
  {
    var d := (m + 1) * (p + x * x) - (n + x) * (n + x);
    var mp := m * p;
    var xx := x * x;
    var nn := n * n;
    var nx := n * x;
    assert (n + x) * (n + x) == nn + 2 * nx + xx;
    assert d == mp + p + m * xx - nn - 2 * nx;
    assert m * d == m * mp + mp + m * m * xx - m * nn - 2 * m * nx by {
      MulDistrib5(m, mp, p, m * xx, nn, 2 * nx);
    }
    assert m * mp + mp >= m * nn + nn by {
      MulMono(m, mp, nn);
    }
    assert m * d >= nn - 2 * m * nx + m * m * xx;
    assert nn - 2 * m * nx + m * m * xx == (n - m * x) * (n - m * x);
    SquareNonneg(n - m * x);
    MulPosSign(m, d);
  }

  lemma MulDistrib5(m: int, a: int, b: int, c: int, e: int, f: int)
    ensures m * (a + b + c - e - f) == m * a + m * b + m * c - m * e - m * f
  {
  }

  lemma MulMono(m: int, a: int, b: int)
    requires m >= 0 && a >= b
    ensures m * a >= m * b
  {
  }

  lemma SquareNonneg(y: int)
    ensures y * y >= 0
  {
  }

  lemma MulPosSign(m: int, d: int)
    requires m >= 1 && m * d >= 0
    ensures d >= 0
  {
  }

  /** Σ_c count_c² ≥ (Σ_c count_c)² / |s| over the classes in `s`. */
  lemma {:induction false} CauchySchwarz(all: seq<nat>, s: set<nat>)
    ensures |s| * PairsIn(all, all, s) >= CountIn(all, s) * CountIn(all, s)
    decreases s
  {
    if s == {} {
      NothingIn(all, all);
    } else {
      var k :| k in s;
      var rest := s - {k};
      assert s == rest + {k};
      CauchySchwarz(all, rest);
      PairsInAdd(all, all, rest, k);
      CountInAdd(all, rest, k);
      var x := Count(all, k);
      if rest == {} {
        NothingIn(all, all);
      } else {
        CauchyStep(|rest|, PairsIn(all, all, rest), CountIn(all, rest), x);
      }
    }
  }

  /** Every label's count is at most the length, so there are at most n² pairs. */
  lemma {:induction false} SamePairsAtMost(all: seq<nat>, part: seq<nat>)
    ensures SamePairs(all, part) <= |part| * |all|
  {
    if part != [] {
      var init := part[..|part| - 1];
      SamePairsAtMost(all, init);
      CountAtMostLength(all, part[|part| - 1]);
      MulSucc(|init|, |all|);
    }
  }

  /** One label of `part` with fewer than `|all|` occurrences makes the pair
      count fall short of the bound. */
  lemma {:induction false} SamePairsBelow(all: seq<nat>, part: seq<nat>, i: nat)
    requires i < |part| && Count(all, part[i]) < |all|
    ensures SamePairs(all, part) < |part| * |all|
  {
    var init := part[..|part| - 1];
    SamePairsAtMost(all, init);
    CountAtMostLength(all, part[|part| - 1]);
    MulSucc(|init|, |all|);
    if i < |part| - 1 {
      assert init[i] == part[i];
      SamePairsBelow(all, init, i);
    }
  }

  /** On a constant sequence every label occurs `|all|` times. */
  lemma {:induction false} CountConstant(all: seq<nat>, x: nat)
    requires forall i :: 0 <= i < |all| ==> all[i] == x
    ensures Count(all, x) == |all|
  {
    if all != [] {
      var init := all[..|all| - 1];
      assert all == init + [x];
      CountConstant(init, x);
      CountSnoc(init, x, x);
    }
  }

  /** Labels that all occur `|all|` times give the most pairs. */
  lemma {:induction false} SamePairsConstant(all: seq<nat>, part: seq<nat>, x: nat)
    requires Count(all, x) == |all|
    requires forall i :: 0 <= i < |part| ==> part[i] == x
    ensures SamePairs(all, part) == |part| * |all|
  {
    if part != [] {
      var init := part[..|part| - 1];
      SamePairsConstant(all, init, x);
      MulSucc(|init|, |all|);
    }
  }

  /** All labels are equal. */
  ghost predicate Pure(labels: seq<nat>) {
    forall i, j :: 0 <= i < |labels| && 0 <= j < |labels| ==> labels[i] == labels[j]
  }

  /** The pairs of equal labels reach n² exactly when all labels agree. */
  lemma AllPairsIffPure(labels: seq<nat>)
    ensures SamePairs(labels, labels) == |labels| * |labels| <==> Pure(labels)
  {
    if labels == [] {
    } else if Pure(labels) {
      CountConstant(labels, labels[0]);
      SamePairsConstant(labels, labels, labels[0]);
    } else {
      var i, j :| 0 <= i < |labels| && 0 <= j < |labels| && labels[i] != labels[j];
      CountPair(labels, labels[i], labels[j]);
      assert labels[j] in multiset(labels);
      SamePairsBelow(labels, labels, i);
    }
  }

  /** Cauchy-Schwarz over all the classes present: c · Σ count² ≥ n². */
  lemma PairsAtLeastSpread(labels: seq<nat>)
    ensures |Classes(labels)| * SamePairs(labels, labels) >= |labels| * |labels|
  {
    EverythingIn(labels, labels, Classes(labels));
    CauchySchwarz(labels, Classes(labels));
  }

  /** Real-number core of the Gini bounds, for `p` pairs among `n` labels
      of `c` classes. */
  lemma RatioBounds(p: nat, n: nat, c: nat)
    requires n > 0 && c >= 1 && p <= n * n && c * p >= n * n
    ensures 0.0 <= 1.0 - ((p as real) / (n as real)) / (n as real) <= 1.0 - 1.0 / (c as real)
    ensures 1.0 - 1.0 / (c as real) < 1.0
    ensures 1.0 - ((p as real) / (n as real)) / (n as real) == 0.0 <==> p == n * n
  {
    var nr, pr, cr := n as real, p as real, c as real;
    var r := (pr / nr) / nr;
    var nn := nr * nr;
    RatioTimesSquare(pr, nr);
    CastMul(n, n);
    assert pr <= nn;
    MulLeCancel(r, 1.0, nn);
    MulLeCancel(1.0, r, nn);
    assert r == 1.0 <==> pr == nn;
    RatioAtLeastInverse(r, pr, nn, c);
  }

  /** `(p / n) / n` times `n * n` is `p`. */
  lemma RatioTimesSquare(pr: real, nr: real)
    requires nr > 0.0
    ensures ((pr / nr) / nr) * (nr * nr) == pr
  {
    var q := pr / nr;
    DivMulCancel(pr, nr);
    DivMulCancel(q, nr);
    var r := q / nr;
    assert r * (nr * nr) == (r * nr) * nr;
  }

  /** A ratio `r = p / nn` with `c * p >= nn` is at least `1 / c`. */
  lemma RatioAtLeastInverse(r: real, pr: real, nn: real, c: nat)
    requires nn > 0.0 && c >= 1 && r * nn == pr && (c as real) * pr >= nn
    ensures r >= 1.0 / (c as real) && 1.0 / (c as real) > 0.0
  {
    var cr := c as real;
    var rc := cr * r;
    assert rc * nn == cr * pr;
    MulLeCancel(1.0, rc, nn);
    var inv := 1.0 / cr;
    assert inv * cr == 1.0;
    assert r * cr == rc;
    MulLeCancel(inv, r, cr);
  }

  /** Gini impurity lies in [0, 1 - 1/c] (so below 1) for the c classes present. */
  lemma GiniBounds(labels: seq<nat>)
    requires |labels| > 0
    ensures |Classes(labels)| >= 1
    ensures 0.0 <= Gini(labels) <= 1.0 - 1.0 / (|Classes(labels)| as real) < 1.0
  {
    assert labels[0] in Classes(labels);
    SamePairsAtMost(labels, labels);
    PairsAtLeastSpread(labels);
    RatioBounds(SamePairs(labels, labels), |labels|, |Classes(labels)|);
  }

  /** Gini impurity is 0 exactly when all labels agree. */
  lemma GiniZeroIffPure(labels: seq<nat>)
    requires |labels| > 0
    ensures Gini(labels) == 0.0 <==> Pure(labels)
  {
    assert labels[0] in Classes(labels);
    SamePairsAtMost(labels, labels);
    PairsAtLeastSpread(labels);
    AllPairsIffPure(labels);
    RatioBounds(SamePairs(labels, labels), |labels|, |Classes(labels)|);
  }

  /** `calculate_gini`: tally the targets in a map, then subtract the squared
      proportion of every class, visiting the classes in an unspecified order. */
  method CalculateGini(data: seq<ProcessedRecord>) returns (g: real)
    ensures g == Gini(Targets(data))
  {
    if |data| == 0 {
      return 0.0;
    }
    var labels := Targets(data);
    var counts := CountLabels(labels);
    var total := |data| as real;
    g := 1.0;
    var remaining := counts.Keys;
    ghost var shares := 0.0;
    assert shares == ((PairsIn(labels, labels, counts.Keys - remaining) as real) / total) / total by {
      assert counts.Keys - remaining == {};
      NothingIn(labels, labels);
    }
    while remaining != {}
      invariant remaining <= counts.Keys
      invariant shares == ((PairsIn(labels, labels, counts.Keys - remaining) as real) / total) / total
      invariant g == 1.0 - shares
      decreases remaining
    {
      var c :| c in remaining;
      var k := counts[c];
      ghost var after := counts.Keys - (remaining - {c});
      assert shares + (k as real / total) * (k as real / total) == ((PairsIn(labels, labels, after) as real) / total) / total by {
        AddShare(labels, counts.Keys - remaining, after, c, k, total);
      }
      g := g - (k as real / total) * (k as real / total);
      shares := shares + (k as real / total) * (k as real / total);
      remaining := remaining - {c};
    }
    assert shares == ((SamePairs(labels, labels) as real) / total) / total by {
      assert counts.Keys - remaining == counts.Keys;
      EverythingIn(labels, labels, counts.Keys);
    }
    SharesGini(labels, total, shares);
  }

  /** The shares summed over all classes give the reference definition. */
  lemma SharesGini(labels: seq<nat>, total: real, shares: real)
    requires |labels| > 0 && total == |labels| as real
    requires shares == ((SamePairs(labels, labels) as real) / total) / total
    ensures 1.0 - shares == Gini(labels)
  {
  }

  lemma CastMul(a: int, b: int)
    ensures (a as real) * (b as real) == (a * b) as real
  {
  }

  /** Squaring a share: (x/t)² = (x²/t)/t. */
  lemma SquareOfRatio(x: real, t: real)
    requires t != 0.0
    ensures (x / t) * (x / t) == ((x * x) / t) / t
  {
    var q := x / t;
    DivBy(q, x, t);
    var qx := q * x;
    var xx := x * x;
    assert qx * t == xx;
    DivBy(qx, xx, t);
    var qq := q * q;
    assert qq * t == qx;
    DivBy(qq, qx, t);
  }

  lemma AddFractions(a: real, b: real, t: real)
    requires t != 0.0
    ensures (a / t) / t + (b / t) / t == ((a + b) / t) / t
  {
    var at, bt := a / t, b / t;
    assert at + bt == (a + b) / t;
    assert at / t + bt / t == (at + bt) / t;
  }

  /** Real-number part of `AddShare`. */
  lemma ShareStep(p: int, p2: int, k: int, total: real)
    requires total != 0.0 && p2 == p + k * k
    ensures ((p as real) / total) / total + (k as real / total) * (k as real / total)
         == ((p2 as real) / total) / total
  {
    var kk := k * k;
    var kr := k as real;
    CastMul(k, k);
    SquareOfRatio(kr, total);
    AddFractions(p as real, kk as real, total);
    assert p2 as real == p as real + kk as real;
  }

  /** One iteration of `calculate_gini`: the squared share of a class `c`
      with `k` members accounts for its `k * k` pairs. */
  lemma AddShare(labels: seq<nat>, done: set<nat>, after: set<nat>, c: nat, k: nat, total: real)
    requires total != 0.0
    requires c !in done && after == done + {c} && k == Count(labels, c)
    ensures ((PairsIn(labels, labels, done) as real) / total) / total + (k as real / total) * (k as real / total)
         == ((PairsIn(labels, labels, after) as real) / total) / total
  {
    PairsInAddSquare(labels, done, c, k);
    ShareStep(PairsIn(labels, labels, done), PairsIn(labels, labels, after), k, total);
  }

  /** Impurities `gl` and `gr` of two sides with `nl` and `nr` records,
      weighted by the sides' shares of the records. */
  function Weighted(nl: nat, nr: nat, gl: real, gr: real): real
    requires nl + nr > 0
  {
    (nl as real / (nl + nr) as real) * gl + (nr as real / (nl + nr) as real) * gr
  }

  /** `calculate_split_gini` as a value: the Gini impurities of the two sides
      weighted by their sizes. */
  function SplitGini(left: seq<ProcessedRecord>, right: seq<ProcessedRecord>): real
    requires |left| + |right| > 0
  {
    Weighted(|left|, |right|, Gini(Targets(left)), Gini(Targets(right)))
  }

  /** Real-number core of the convexity argument. */
  lemma ConvexCombination(wl: real, wr: real, gl: real, gr: real)
    requires 0.0 < wl && 0.0 < wr && wl + wr == 1.0
    ensures gl <= gr ==> gl <= wl * gl + wr * gr <= gr
    ensures gr <= gl ==> gr <= wl * gl + wr * gr <= gl
  {
    assert wl * gl + wr * gr == gl + wr * (gr - gl);
    assert wl * gl + wr * gr == gr + wl * (gl - gr);
    if gl <= gr {
      MulNonneg(wr, gr - gl);
      MulNonneg(wl, gr - gl);
      assert wl * (gl - gr) == -(wl * (gr - gl));
    } else {
      MulNonneg(wl, gl - gr);
      MulNonneg(wr, gl - gr);
      assert wr * (gr - gl) == -(wr * (gl - gr));
    }
  }

  /** With two non-empty sides the weighted impurity lies between the two
      impurities, and in [0, 1) when they do. */
  lemma WeightedBetween(nl: nat, nr: nat, gl: real, gr: real)
    requires nl > 0 && nr > 0
    ensures gl <= gr ==> gl <= Weighted(nl, nr, gl, gr) <= gr
    ensures gr <= gl ==> gr <= Weighted(nl, nr, gl, gr) <= gl
    ensures 0.0 <= gl < 1.0 && 0.0 <= gr < 1.0 ==> 0.0 <= Weighted(nl, nr, gl, gr) < 1.0
  {
    var total := (nl + nr) as real;
    assert nl as real / total + nr as real / total == 1.0;
    ConvexCombination(nl as real / total, nr as real / total, gl, gr);
  }

  /** The weighted impurity of a split lies between the impurities of its two
      sides, and in [0, 1). */
  lemma SplitGiniBetween(left: seq<ProcessedRecord>, right: seq<ProcessedRecord>)
    requires |left| > 0 && |right| > 0
    ensures Gini(Targets(left)) <= Gini(Targets(right)) ==>
              Gini(Targets(left)) <= SplitGini(left, right) <= Gini(Targets(right))
    ensures Gini(Targets(right)) <= Gini(Targets(left)) ==>
              Gini(Targets(right)) <= SplitGini(left, right) <= Gini(Targets(left))
    ensures 0.0 <= SplitGini(left, right) < 1.0
  {
    GiniBounds(Targets(left));
    GiniBounds(Targets(right));
    WeightedBetween(|left|, |right|, Gini(Targets(left)), Gini(Targets(right)));
  }

  /** `calculate_split_gini`, computing each side with `calculate_gini`. */
  method CalculateSplitGini(left: seq<ProcessedRecord>, right: seq<ProcessedRecord>) returns (g: real)
    requires |left| + |right| > 0
    ensures g == SplitGini(left, right)
  {
    var leftGini := CalculateGini(left);
    var rightGini := CalculateGini(right);
    g := Weighted(|left|, |right|, leftGini, rightGini);
  }
}
