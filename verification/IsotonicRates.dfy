/** What a fit serves, as success rates of the samples between two scores. */
module IsotonicRates {
  import opened IsotonicPooling
  import opened IsotonicPav
  import opened IsotonicMaxMin
  import opened IsotonicKnots
  import opened IsotonicFit
  import opened IsotonicTheorems
  import opened IsotonicServing

  // ---------------------------------------------------------------------------
  // Samples between two scores
  // ---------------------------------------------------------------------------

  /** The samples whose clamped score lies in [lo, hi]. */
  ghost function Within(scores: seq<real>, lo: real, hi: real): set<nat> {
    set i: nat | i < |scores| && lo <= Clamp01(scores[i]) <= hi
  }

  ghost function Successes(scores: seq<real>, labels: seq<bool>, lo: real, hi: real): set<nat>
    requires |scores| == |labels|
  {
    set i: nat | i < |scores| && lo <= Clamp01(scores[i]) <= hi && labels[i]
  }

  /** Their share of successes. */
  ghost function Rate(scores: seq<real>, labels: seq<bool>, lo: real, hi: real): real
    requires |scores| == |labels|
  {
    if Within(scores, lo, hi) == {} then 0.0
    else |Successes(scores, labels, lo, hi)| as real / |Within(scores, lo, hi)| as real
  }

  ghost predicate SampleScore(scores: seq<real>, t: real) { exists i | 0 <= i < |scores| :: Clamp01(scores[i]) == t }

  ghost function InRange(lo: real, hi: real): (real, Label) -> real { (x, y) => if lo <= x <= hi then 1.0 else 0.0 }

  ghost function HitsInRange(lo: real, hi: real): (real, Label) -> real {
    (x, y: Label) => if lo <= x <= hi then y as real else 0.0
  }

  lemma {:induction false} CountsWithin(scores: seq<real>, labels: seq<bool>, lo: real, hi: real)
    requires |scores| == |labels|
    ensures Total(Pairs(scores, labels), InRange(lo, hi)) == |Within(scores, lo, hi)| as real
    ensures Total(Pairs(scores, labels), HitsInRange(lo, hi)) == |Successes(scores, labels, lo, hi)| as real
  {
    if |scores| == 0 {
      assert Within(scores, lo, hi) == {} && Successes(scores, labels, lo, hi) == {};
    } else {
      var n := |scores| - 1;
      CountsWithin(scores[..n], labels[..n], lo, hi);
      assert Pairs(scores, labels)[..n] == Pairs(scores[..n], labels[..n]);
      OneMoreWithin(scores, lo, hi);
      OneMoreSuccess(scores, labels, lo, hi);
    }
  }

  lemma OneMoreWithin(scores: seq<real>, lo: real, hi: real)
    requires |scores| > 0
    ensures var n := |scores| - 1;
      |Within(scores, lo, hi)| == |Within(scores[..n], lo, hi)| + (if lo <= Clamp01(scores[n]) <= hi then 1 else 0)
  {
    var n: nat := |scores| - 1;
    var w := Within(scores[..n], lo, hi);
    assert Within(scores, lo, hi) == if lo <= Clamp01(scores[n]) <= hi then w + {n} else w;
  }

  lemma OneMoreSuccess(scores: seq<real>, labels: seq<bool>, lo: real, hi: real)
    requires |scores| == |labels| > 0
    ensures var n := |scores| - 1;
      |Successes(scores, labels, lo, hi)|
      == |Successes(scores[..n], labels[..n], lo, hi)| + (if lo <= Clamp01(scores[n]) <= hi && labels[n] then 1 else 0)
  {
    var n: nat := |scores| - 1;
    var w := Successes(scores[..n], labels[..n], lo, hi);
    assert Successes(scores, labels, lo, hi) == if lo <= Clamp01(scores[n]) <= hi && labels[n] then w + {n} else w;
  }

  // ---------------------------------------------------------------------------
  // Pooled ranges
  // ---------------------------------------------------------------------------

  lemma {:induction false} InsideCounts(g: seq<WeightedScorePair>, lo: real, hi: real)
    requires forall p | p in g :: lo <= p.score <= hi
    ensures PooledTotal(g, InRange(lo, hi)) == WeightOf(g) as real
    ensures PooledTotal(g, HitsInRange(lo, hi)) == SumOf(g) as real
  {
    if |g| > 0 {
      assert g[|g| - 1] in g;
      InsideCounts(g[..|g| - 1], lo, hi);
    }
  }

  lemma {:induction false} OutsideCounts(g: seq<WeightedScorePair>, lo: real, hi: real)
    requires forall p | p in g :: p.score < lo || p.score > hi
    ensures PooledTotal(g, InRange(lo, hi)) == 0.0 && PooledTotal(g, HitsInRange(lo, hi)) == 0.0
  {
    if |g| > 0 {
      assert g[|g| - 1] in g;
      OutsideCounts(g[..|g| - 1], lo, hi);
    }
  }

  lemma RangeParts(q: seq<WeightedScorePair>, j: nat, k: nat)
    requires WellPooled(q) && j <= k < |q|
    ensures q == (q[..j] + q[j..k + 1]) + q[k + 1..]
    ensures forall p | p in q[..j] :: p.score < q[j].score
    ensures forall p | p in q[j..k + 1] :: q[j].score <= p.score <= q[k].score
    ensures forall p | p in q[k + 1..] :: p.score > q[k].score
  {
  }

  lemma RangeCounts(q: seq<WeightedScorePair>, j: nat, k: nat)
    requires WellPooled(q) && j <= k < |q|
    ensures PooledTotal(q, InRange(q[j].score, q[k].score)) == WeightOf(q[j..k + 1]) as real
    ensures PooledTotal(q, HitsInRange(q[j].score, q[k].score)) == SumOf(q[j..k + 1]) as real
  {
    RangeParts(q, j, k);
    CountedParts(q[..j], q[j..k + 1], q[k + 1..], q[j].score, q[k].score);
  }

  lemma CountedParts(l: seq<WeightedScorePair>, g: seq<WeightedScorePair>, r: seq<WeightedScorePair>, lo: real, hi: real)
    requires forall p | p in l :: p.score < lo || p.score > hi
    requires forall p | p in g :: lo <= p.score <= hi
    requires forall p | p in r :: p.score < lo || p.score > hi
    ensures PooledTotal((l + g) + r, InRange(lo, hi)) == WeightOf(g) as real
    ensures PooledTotal((l + g) + r, HitsInRange(lo, hi)) == SumOf(g) as real
  {
    OutsideCounts(l, lo, hi);
    InsideCounts(g, lo, hi);
    OutsideCounts(r, lo, hi);
    ThreeParts(l, g, r, InRange(lo, hi));
    ThreeParts(l, g, r, HitsInRange(lo, hi));
  }

  lemma ThreeParts(l: seq<WeightedScorePair>, g: seq<WeightedScorePair>, r: seq<WeightedScorePair>, f: (real, Label) -> real)
    ensures PooledTotal((l + g) + r, f) == PooledTotal(l, f) + PooledTotal(g, f) + PooledTotal(r, f)
  {
    PooledTotalConcat(l + g, r, f);
    PooledTotalConcat(l, g, f);
  }

  lemma PooledRange(ps: seq<ScoreLabelPair>, j: nat, k: nat)
    requires (forall p | p in ps :: 0.0 <= p.score <= 1.0) && j <= k < |PooledPairs(ps)|
    ensures var q := PooledPairs(ps); Total(ps, InRange(q[j].score, q[k].score)) == WeightOf(q[j..k + 1]) as real
    ensures var q := PooledPairs(ps); Total(ps, HitsInRange(q[j].score, q[k].score)) == SumOf(q[j..k + 1]) as real
  {
    var q := PooledPairs(ps);
    RangeCounts(q, j, k);
    SampleTotalIsPooled(ps, InRange(q[j].score, q[k].score));
    SampleTotalIsPooled(ps, HitsInRange(q[j].score, q[k].score));
  }

  lemma RangeSizes(scores: seq<real>, labels: seq<bool>, j: nat, k: nat)
    requires |scores| == |labels| > 0 && j <= k < |PooledPairs(Pairs(scores, labels))|
    ensures var q := PooledPairs(Pairs(scores, labels));
      && |Within(scores, q[j].score, q[k].score)| == WeightOf(q[j..k + 1])
      && |Successes(scores, labels, q[j].score, q[k].score)| == SumOf(q[j..k + 1])
  {
    var q := PooledPairs(Pairs(scores, labels));
    PooledRange(Pairs(scores, labels), j, k);
    CountsWithin(scores, labels, q[j].score, q[k].score);
  }

  /** A mean over pooled pairs is the success rate of the samples from the first score to the last. */
  lemma RangeMeanIsRate(scores: seq<real>, labels: seq<bool>, j: nat, k: nat)
    requires |scores| == |labels| > 0 && j <= k < |PooledPairs(Pairs(scores, labels))|
    ensures var q := PooledPairs(Pairs(scores, labels));
      RangeMean(q, j, k) == Rate(scores, labels, q[j].score, q[k].score)
  {
    RangeSizes(scores, labels, j, k);
  }

  lemma SampleScoresArePooled(scores: seq<real>, labels: seq<bool>, t: real)
    requires |scores| == |labels|
    ensures SampleScore(scores, t) <==> HasScore(PooledPairs(Pairs(scores, labels)), t)
  {
    var ps, q := Pairs(scores, labels), PooledPairs(Pairs(scores, labels));
    PooledScores(ps);
    if SampleScore(scores, t) {
      var i :| 0 <= i < |scores| && Clamp01(scores[i]) == t;
      assert ps[i] in ps && ps[i].score == t;
    }
    if HasScore(q, t) {
      var i :| 0 <= i < |q| && q[i].score == t;
      assert q[i] in q;
      var p :| p in ps && p.score == t;
      var m :| 0 <= m < |ps| && ps[m] == p;
    }
  }

  // ---------------------------------------------------------------------------
  // The served value
  // ---------------------------------------------------------------------------

  lemma {:induction false} MinMeanAttained(q: seq<WeightedScorePair>, j: nat, i: nat, k: nat) returns (t: nat)
    requires j <= i <= k < |q|
    ensures i <= t <= k && MinMean(q, j, i, k) == RangeMean(q, j, t)
  {
    t := k;
    if k > i {
      var u := MinMeanAttained(q, j, i, k - 1);
      if MinMean(q, j, i, k - 1) <= RangeMean(q, j, k) {
        t := u;
      }
    }
  }

  lemma {:induction false} MaxMinAttained(q: seq<WeightedScorePair>, i: nat, j: nat) returns (t: nat)
    requires j <= i < |q|
    ensures t <= j && MaxMinMean(q, i, j) == MinOverEnds(q, i, t)
    ensures forall u | 0 <= u <= j :: MinOverEnds(q, i, u) <= MaxMinMean(q, i, j)
  {
    t := j;
    if j > 0 {
      var u := MaxMinAttained(q, i, j - 1);
      if MinOverEnds(q, i, j) < MaxMinMean(q, i, j - 1) {
        t := u;
      }
    }
  }

  /** No end from `t` on brings the rate from `lo` below `v`. */
  ghost predicate Reaches(scores: seq<real>, labels: seq<bool>, lo: real, t: real, v: real)
    requires |scores| == |labels|
  {
    forall hi | SampleScore(scores, hi) && t <= hi :: Rate(scores, labels, lo, hi) >= v
  }

  /** Some end from `t` on brings it to `v` or below. */
  ghost predicate Capped(scores: seq<real>, labels: seq<bool>, lo: real, t: real, v: real)
    requires |scores| == |labels|
  {
    exists hi | SampleScore(scores, hi) :: t <= hi && Rate(scores, labels, lo, hi) <= v
  }

  /** `v` is the greatest over starts up to `t` of the least over ends from `t` of the success rate. */
  ghost predicate IsMaxMinRate(scores: seq<real>, labels: seq<bool>, t: real, v: real)
    requires |scores| == |labels|
  {
    && (exists lo | SampleScore(scores, lo) :: lo <= t && Reaches(scores, labels, lo, t, v))
    && forall lo | SampleScore(scores, lo) && lo <= t :: Capped(scores, labels, lo, t, v)
  }

  /** The last sample score at or below `s`, or the first of all when none is. */
  ghost predicate ServingScore(scores: seq<real>, s: real, t: real) {
    && SampleScore(scores, t)
    && if t <= s then forall u | SampleScore(scores, u) :: u <= t || s < u
       else forall u | SampleScore(scores, u) :: t <= u
  }

  lemma PooledOrder(q: seq<WeightedScorePair>, j: nat, i: nat)
    requires WellPooled(q) && j < |q| && i < |q|
    ensures q[j].score <= q[i].score <==> j <= i
  {
  }

  lemma StartReaches(scores: seq<real>, labels: seq<bool>, j: nat, i: nat, v: real)
    requires |scores| == |labels| > 0 && j <= i < |PooledPairs(Pairs(scores, labels))|
    requires MinOverEnds(PooledPairs(Pairs(scores, labels)), i, j) >= v
    ensures var q := PooledPairs(Pairs(scores, labels)); Reaches(scores, labels, q[j].score, q[i].score, v)
  {
    var q := PooledPairs(Pairs(scores, labels));
    forall hi | SampleScore(scores, hi) && q[i].score <= hi ensures Rate(scores, labels, q[j].score, hi) >= v {
      SampleScoresArePooled(scores, labels, hi);
      var k: nat :| k < |q| && q[k].score == hi;
      PooledOrder(q, i, k);
      MinMeanBounds(q, j, i, |q| - 1, v);
      RangeMeanIsRate(scores, labels, j, k);
    }
  }

  lemma StartCapped(scores: seq<real>, labels: seq<bool>, j: nat, i: nat, v: real)
    requires |scores| == |labels| > 0 && j <= i < |PooledPairs(Pairs(scores, labels))|
    requires MinOverEnds(PooledPairs(Pairs(scores, labels)), i, j) <= v
    ensures var q := PooledPairs(Pairs(scores, labels)); Capped(scores, labels, q[j].score, q[i].score, v)
  {
    var q := PooledPairs(Pairs(scores, labels));
    var k := MinMeanAttained(q, j, i, |q| - 1);
    SampleScoresArePooled(scores, labels, q[k].score);
    PooledOrder(q, i, k);
    RangeMeanIsRate(scores, labels, j, k);
  }

  lemma MaxMinIsRate(scores: seq<real>, labels: seq<bool>, i: nat)
    requires |scores| == |labels| > 0 && i < |PooledPairs(Pairs(scores, labels))|
    ensures var q := PooledPairs(Pairs(scores, labels)); IsMaxMinRate(scores, labels, q[i].score, MaxMinMean(q, i, i))
  {
    var q := PooledPairs(Pairs(scores, labels));
    var v := MaxMinMean(q, i, i);
    var j := MaxMinAttained(q, i, i);
    SampleScoresArePooled(scores, labels, q[j].score);
    PooledOrder(q, j, i);
    StartReaches(scores, labels, j, i, v);
    forall lo | SampleScore(scores, lo) && lo <= q[i].score ensures Capped(scores, labels, lo, q[i].score, v) {
      SampleScoresArePooled(scores, labels, lo);
      var u: nat :| u < |q| && q[u].score == lo;
      PooledOrder(q, u, i);
      StartCapped(scores, labels, u, i, v);
    }
  }

  lemma ServingPair(scores: seq<real>, labels: seq<bool>, s: real, t: real) returns (i: nat)
    requires |scores| == |labels| > 0 && ServingScore(scores, s, t)
    ensures var q := PooledPairs(Pairs(scores, labels)); ServesAt(q, s, i) && q[i].score == t
  {
    var q := PooledPairs(Pairs(scores, labels));
    SampleScoresArePooled(scores, labels, t);
    i :| i < |q| && q[i].score == t;
    if t <= s {
      if i + 1 < |q| {
        SampleScoresArePooled(scores, labels, q[i + 1].score);
      }
    } else {
      SampleScoresArePooled(scores, labels, q[0].score);
      PooledOrder(q, i, 0);
    }
  }

  /**
   * At every real score the fit serves the max-min success rate of the samples, taken at the last
   * sample score at or below it, or at the first one when none is.
   */
  lemma FitServesRates(scores: seq<real>, labels: seq<bool>, x: real)
    requires |scores| == |labels| > 0
    ensures exists t :: ServingScore(scores, Clamp01(x), t)
    ensures forall t | ServingScore(scores, Clamp01(x), t) ::
      IsMaxMinRate(scores, labels, t, Lookup(x, FitKnots(scores, labels)))
  {
    var q := PooledPairs(Pairs(scores, labels));
    SomeServingScore(scores, labels, Clamp01(x));
    forall t | ServingScore(scores, Clamp01(x), t)
      ensures IsMaxMinRate(scores, labels, t, Lookup(x, FitKnots(scores, labels)))
    {
      var i := ServingPair(scores, labels, Clamp01(x), t);
      FitServes(scores, labels, x, i);
      MaxMinIsRate(scores, labels, i);
    }
  }

  lemma SomeServingScore(scores: seq<real>, labels: seq<bool>, s: real)
    requires |scores| == |labels| > 0
    ensures exists t :: ServingScore(scores, s, t)
  {
    var q := PooledPairs(Pairs(scores, labels));
    var i := SomeServes(q, s, |q| - 1);
    forall u ensures SampleScore(scores, u) <==> HasScore(q, u) {
      SampleScoresArePooled(scores, labels, u);
    }
    assert HasScore(q, q[i].score);
    forall u | HasScore(q, u) ensures if q[i].score <= s then u <= q[i].score || s < u else q[i].score <= u {
      var m: nat :| m < |q| && q[m].score == u;
      PooledOrder(q, m, i);
      if i + 1 < |q| {
        PooledOrder(q, i + 1, m);
      }
    }
    assert ServingScore(scores, s, q[i].score);
  }

  lemma ReachedIsBelowCap(scores: seq<real>, labels: seq<bool>, lo: real, t: real, v: real, w: real)
    requires |scores| == |labels| && Reaches(scores, labels, lo, t, v) && Capped(scores, labels, lo, t, w)
    ensures v <= w
  {
  }

  /** Only one value is the max-min rate at a score. */
  lemma MaxMinRateIsUnique(scores: seq<real>, labels: seq<bool>, t: real, v: real, w: real)
    requires |scores| == |labels| && IsMaxMinRate(scores, labels, t, v) && IsMaxMinRate(scores, labels, t, w)
    ensures v == w
  {
    var lo :| SampleScore(scores, lo) && lo <= t && Reaches(scores, labels, lo, t, v);
    ReachedIsBelowCap(scores, labels, lo, t, v, w);
    var mo :| SampleScore(scores, mo) && mo <= t && Reaches(scores, labels, mo, t, w);
    ReachedIsBelowCap(scores, labels, mo, t, w, v);
  }

  /** Every y-knot is the max-min rate at some sample score, and every x-knot but 0 and 1 is one. */
  lemma KnotsAreRates(scores: seq<real>, labels: seq<bool>)
    requires |scores| == |labels| > 0
    ensures forall x | x in FitKnots(scores, labels).xs :: x == 0.0 || x == 1.0 || SampleScore(scores, x)
    ensures forall y | y in FitKnots(scores, labels).ys :: exists t :: SampleScore(scores, t) && IsMaxMinRate(scores, labels, t, y)
  {
    var q := PooledPairs(Pairs(scores, labels));
    KnotsAreServed(scores, labels);
    forall x | x in FitKnots(scores, labels).xs ensures x == 0.0 || x == 1.0 || SampleScore(scores, x) {
      SampleScoresArePooled(scores, labels, x);
    }
    forall y | y in FitKnots(scores, labels).ys ensures exists t :: SampleScore(scores, t) && IsMaxMinRate(scores, labels, t, y) {
      var i :| 0 <= i < |q| && y == MaxMinMean(q, i, i);
      MaxMinIsRate(scores, labels, i);
      SampleScoresArePooled(scores, labels, q[i].score);
    }
  }
}
