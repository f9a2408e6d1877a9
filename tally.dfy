/** Counting labels and picking a most frequent one: the `HashMap` tally
    followed by `max_by_key` that the decision tree (`most_common_class`),
    k-nearest-neighbours (`majority_vote`) and the voting ensemble share. */
module Tally {
  import opened Common

  /** Number of occurrences of `c` in `labels`. */
  function Count(labels: seq<nat>, c: nat): nat {
    multiset(labels)[c]
  }

  /** The labels occurring in `labels`. */
  function Classes(labels: seq<nat>): set<nat> {
    set l | l in labels
  }

  /** `r` is a label of maximal count in `labels`, or 0 when there are none. */
  ghost predicate IsMostCommon(labels: seq<nat>, r: nat) {
    if |labels| == 0 then r == 0
    else r in labels && forall c :: Count(labels, c) <= Count(labels, r)
  }

  /** Fills a map from each label to its number of occurrences, one label at
      a time, as `*counts.entry(l).or_insert(0) += 1` does. */
  method CountLabels(labels: seq<nat>) returns (counts: map<nat, nat>)
    ensures counts.Keys == Classes(labels)
    ensures forall c :: c in counts ==> counts[c] == Count(labels, c) && counts[c] > 0
  {
    counts := map[];
    for i := 0 to |labels|
      invariant counts.Keys == Classes(labels[..i])
      invariant forall c :: c in counts ==> counts[c] == Count(labels[..i], c) && counts[c] > 0
    {
      var v := labels[i];
      assert labels[..i + 1] == labels[..i] + [v];
      counts := counts[v := (if v in counts then counts[v] else 0) + 1];
    }
    assert labels[..|labels|] == labels;
  }

  /** `max_by_key` over the entries of a map visited in an unspecified order:
      the last entry of maximal count wins, so the result is some key of
      maximal count, and `None` on an empty map. */
  method MaxByCount(counts: map<nat, nat>) returns (r: Option<nat>)
    ensures r.None? <==> counts == map[]
    ensures r.Some? ==> r.value in counts && forall c :: c in counts ==> counts[c] <= counts[r.value]
  {
    var remaining := counts.Keys;
    r := None;
    while remaining != {}
      invariant remaining <= counts.Keys
      invariant r.None? <==> remaining == counts.Keys
      invariant r.Some? ==> r.value in counts
      invariant r.Some? ==> forall c :: c in counts && c !in remaining ==> counts[c] <= counts[r.value]
      decreases remaining
    {
      var c :| c in remaining;
      if r.None? || counts[c] >= counts[r.value] {
        r := Some(c);
      }
      remaining := remaining - {c};
    }
    if counts != map[] {
      var k :| k in counts;
      assert k in counts.Keys;
    }
  }

  /** The tally followed by the maximum: a label of maximal count, or 0 when
      there is no label at all. */
  method MostCommon(labels: seq<nat>) returns (r: nat)
    ensures IsMostCommon(labels, r)
  {
    var counts := CountLabels(labels);
    var best := MaxByCount(counts);
    NoClassesOnlyWhenEmpty(labels);
    if best.Some? {
      r := best.value;
      forall c ensures Count(labels, c) <= Count(labels, r) {
        if c !in counts {
          assert c !in labels;
        }
      }
    } else {
      r := 0;
    }
  }

  lemma NoClassesOnlyWhenEmpty(labels: seq<nat>)
    ensures Classes(labels) == {} <==> |labels| == 0
  {
    if |labels| > 0 {
      assert labels[0] in Classes(labels);
    }
  }

  /** Two different labels together occur at most `|labels|` times. */
  lemma {:induction false} CountPair(labels: seq<nat>, a: nat, b: nat)
    requires a != b
    ensures Count(labels, a) + Count(labels, b) <= |labels|
  {
    if |labels| > 0 {
      CountPair(labels[1..], a, b);
      assert labels == [labels[0]] + labels[1..];
    }
  }

  /** A label held by a strict majority is the only most common label. */
  lemma StrictMajorityWins(labels: seq<nat>, l: nat, r: nat)
    requires 2 * Count(labels, l) > |labels|
    requires IsMostCommon(labels, r)
    ensures r == l
  {
    if r != l {
      CountPair(labels, l, r);
    }
  }
}
