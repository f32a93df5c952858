/** The calibrator's promises, stated on raw scores and labels. */
module IsotonicTheorems {
  import opened Sorting
  import opened IsotonicPooling
  import opened IsotonicPav
  import opened IsotonicOptimality
  import opened IsotonicMaxMin
  import opened IsotonicKnots
  import opened IsotonicFit
  import opened IsotonicLookup
  import opened IsotonicEce

  // ---------------------------------------------------------------------------
  // From samples to pooled pairs
  // ---------------------------------------------------------------------------

  /** A sum over the samples is the same sum over the sorted, pooled pairs. */
  lemma SampleTotalIsPooled(ps: seq<ScoreLabelPair>, f: (real, Label) -> real)
    requires forall p | p in ps :: 0.0 <= p.score <= 1.0
    ensures Total(ps, f) == PooledTotal(PooledPairs(ps), f)
  {
    TotalPermutation(ps, Sort(ps, PairLeq), f);
    PoolPreservesTotals(Sort(ps, PairLeq), f);
  }

  ghost predicate HasScore(q: seq<WeightedScorePair>, x: real) {
    exists i | 0 <= i < |q| :: q[i].score == x
  }

  lemma {:induction false} PoolKeepsScores(ps: seq<ScoreLabelPair>)
    ensures forall p | p in ps :: HasScore(Pool(ps), p.score)
    ensures forall e | e in Pool(ps) :: exists p | p in ps :: p.score == e.score
  {
    if |ps| > 0 {
      var init, p := ps[..|ps| - 1], ps[|ps| - 1];
      PoolKeepsScores(init);
      var q, r := Pool(init), PoolStep(Pool(init), p);
      forall o | o in ps ensures HasScore(r, o.score) {
        if o in init && o.score != p.score {
          var i :| 0 <= i < |q| && q[i].score == o.score;
          assert r[i] == q[i];
        } else {
          assert r[|r| - 1].score == p.score;
        }
      }
      forall e | e in r ensures exists o | o in ps :: o.score == e.score {
        if e.score == p.score {
          assert p in ps;
        } else {
          assert e in q;
          var o :| o in init && o.score == e.score;
          assert o in ps;
        }
      }
    }
  }

  lemma PooledScores(ps: seq<ScoreLabelPair>)
    requires forall p | p in ps :: 0.0 <= p.score <= 1.0
    ensures forall p | p in ps :: HasScore(PooledPairs(ps), p.score)
    ensures forall e | e in PooledPairs(ps) :: exists p | p in ps :: p.score == e.score
  {
    var sorted := Sort(ps, PairLeq);
    PoolKeepsScores(sorted);
    assert forall p :: p in ps <==> p in multiset(ps);
    assert forall p :: p in sorted <==> p in multiset(sorted);
  }

  // ---------------------------------------------------------------------------
  // Least squares
  // ---------------------------------------------------------------------------

  ghost function ErrorOf(g: real -> real): (real, Label) -> real {
    (x, y: Label) => (g(x) - y as real) * (g(x) - y as real)
  }

  ghost function DistanceOf(g: real -> real, h: real -> real): (real, Label) -> real {
    (x, y) => (g(x) - h(x)) * (g(x) - h(x))
  }

  /** Sum over the samples of (g(score) - label)^2. */
  ghost function SquaredError(ps: seq<ScoreLabelPair>, g: real -> real): real { Total(ps, ErrorOf(g)) }

  /** Sum over the samples of (g(score) - h(score))^2. */
  ghost function SquaredDistance(ps: seq<ScoreLabelPair>, g: real -> real, h: real -> real): real {
    Total(ps, DistanceOf(g, h))
  }

  ghost predicate MonotoneOn(ps: seq<ScoreLabelPair>, g: real -> real) {
    forall a, b | a in ps && b in ps && a.score <= b.score :: g(a.score) <= g(b.score)
  }

  function LookupMap(k: Knots): real -> real { x => Lookup(x, k) }

  /** The fitted map from scores to calibrated scores. */
  function FittedMap(scores: seq<real>, labels: seq<bool>): real -> real { LookupMap(FitKnots(scores, labels)) }

  ghost function AtScores(q: seq<WeightedScorePair>, g: real -> real): (u: seq<real>)
    ensures |u| == |q|
  {
    seq(|q|, i requires 0 <= i < |q| => g(q[i].score))
  }

  lemma {:induction false} PooledErrors(q: seq<WeightedScorePair>, g: real -> real, h: real -> real, n: nat)
    requires n <= |q|
    ensures PooledTotal(q[..n], ErrorOf(g)) == WeightedLoss(q, AtScores(q, g), n)
    ensures PooledTotal(q[..n], DistanceOf(g, h)) == WeightedDistance(q, AtScores(q, g), AtScores(q, h), n)
  {
    if n > 0 {
      PooledErrors(q, g, h, n - 1);
      assert q[..n][..n - 1] == q[..n - 1];
    }
  }

  lemma SampleErrors(ps: seq<ScoreLabelPair>, g: real -> real, h: real -> real)
    requires forall p | p in ps :: 0.0 <= p.score <= 1.0
    ensures var q := PooledPairs(ps);
      && SquaredError(ps, g) == WeightedLoss(q, AtScores(q, g), |q|)
      && SquaredDistance(ps, g, h) == WeightedDistance(q, AtScores(q, g), AtScores(q, h), |q|)
  {
    var q := PooledPairs(ps);
    SampleTotalIsPooled(ps, ErrorOf(g));
    SampleTotalIsPooled(ps, DistanceOf(g, h));
    PooledErrors(q, g, h, |q|);
    assert q[..|q|] == q;
  }

  lemma MonotoneAtScores(ps: seq<ScoreLabelPair>, g: real -> real)
    requires forall p | p in ps :: 0.0 <= p.score <= 1.0
    requires MonotoneOn(ps, g)
    ensures NonDecreasing(AtScores(PooledPairs(ps), g))
  {
    PooledScores(ps);
    var q := PooledPairs(ps);
    var u := AtScores(q, g);
    forall i, j | 0 <= i < j < |q| ensures u[i] <= u[j] {
      assert q[i] in q && q[j] in q && q[i].score < q[j].score;
      var a :| a in ps && a.score == q[i].score;
      var b :| b in ps && b.score == q[j].score;
      assert g(a.score) <= g(b.score);
    }
  }

  /** The fitted map takes the certified block means at the pooled scores. */
  lemma FittedValues(scores: seq<real>, labels: seq<bool>)
    requires |scores| == |labels| > 0
    ensures AtScores(PooledPairs(Pairs(scores, labels)), FittedMap(scores, labels)) == Values(GroupsOf(scores, labels))
  {
    FitTabulates(scores, labels);
  }

  /**
   * Least squares: the fitted map is monotone, and any map `g` that is monotone on the sample
   * scores loses at least its squared distance to the fit.
   */
  lemma FitIsLeastSquares(scores: seq<real>, labels: seq<bool>, g: real -> real)
    requires |scores| == |labels| > 0
    requires MonotoneOn(Pairs(scores, labels), g)
    ensures MonotoneOn(Pairs(scores, labels), FittedMap(scores, labels))
    ensures var ps, h := Pairs(scores, labels), FittedMap(scores, labels);
      SquaredError(ps, g) >= SquaredError(ps, h) + SquaredDistance(ps, g, h)
  {
    var ps, h := Pairs(scores, labels), FittedMap(scores, labels);
    var q := PooledPairs(ps);
    FitTabulates(scores, labels);
    FittedValues(scores, labels);
    SampleErrors(ps, g, h);
    SampleErrors(ps, h, h);
    MonotoneAtScores(ps, g);
    CertifiedIsOptimal(q, Values(GroupsOf(scores, labels)), AtScores(q, g));
    forall a, b | a in ps && b in ps && a.score <= b.score ensures h(a.score) <= h(b.score) {
      LookupMonotone(a.score, b.score, FitKnots(scores, labels));
    }
  }

  lemma {:induction false} TotalOfNonNegative(ps: seq<ScoreLabelPair>, f: (real, Label) -> real)
    requires forall p | p in ps :: f(p.score, p.outcome) >= 0.0
    ensures Total(ps, f) >= 0.0
    ensures forall p | p in ps :: f(p.score, p.outcome) <= Total(ps, f)
  {
    if |ps| > 0 {
      var init, p := ps[..|ps| - 1], ps[|ps| - 1];
      assert p in ps;
      TotalOfNonNegative(init, f);
      forall o | o in ps ensures f(o.score, o.outcome) <= Total(ps, f) {
        assert o in init || o == p;
      }
    }
  }

  lemma NoDistance(ps: seq<ScoreLabelPair>, g: real -> real, h: real -> real)
    requires SquaredDistance(ps, g, h) <= 0.0
    ensures forall p | p in ps :: g(p.score) == h(p.score)
  {
    TotalOfNonNegative(ps, DistanceOf(g, h));
    forall p | p in ps ensures g(p.score) == h(p.score) {
      var d := g(p.score) - h(p.score);
      ZeroSquare(d, DistanceOf(g, h)(p.score, p.outcome));
    }
  }

  lemma PositiveProduct(a: real, b: real, e: real)
    requires a > 0.0 && b > 0.0 && e == a * b
    ensures e > 0.0
  {
  }

  lemma ZeroSquare(d: real, e: real)
    requires e == d * d
    ensures e <= 0.0 ==> d == 0.0
  {
    if d > 0.0 {
      PositiveProduct(d, d, e);
    } else if d < 0.0 {
      PositiveProduct(-d, -d, e);
    }
  }

  /** Uniqueness: a monotone map that does as well as the fit equals it on every sample score. */
  lemma FitIsUniqueMinimiser(scores: seq<real>, labels: seq<bool>, g: real -> real)
    requires |scores| == |labels| > 0
    requires MonotoneOn(Pairs(scores, labels), g)
    ensures SquaredError(Pairs(scores, labels), g) <= SquaredError(Pairs(scores, labels), FittedMap(scores, labels)) ==>
      forall p | p in Pairs(scores, labels) :: g(p.score) == FittedMap(scores, labels)(p.score)
  {
    FitIsLeastSquares(scores, labels, g);
    if SquaredError(Pairs(scores, labels), g) <= SquaredError(Pairs(scores, labels), FittedMap(scores, labels)) {
      NoDistance(Pairs(scores, labels), g, FittedMap(scores, labels));
    }
  }

  /** The fitted value of a sample is the max-min mean at its pooled position. */
  lemma FitIsMaxMin(scores: seq<real>, labels: seq<bool>, i: nat)
    requires |scores| == |labels| > 0 && i < |PooledPairs(Pairs(scores, labels))|
    ensures var q := PooledPairs(Pairs(scores, labels));
      Lookup(q[i].score, FitKnots(scores, labels)) == MaxMinMean(q, i, i)
  {
    FitTabulates(scores, labels);
    PavIsMaxMin(PooledPairs(Pairs(scores, labels)), i);
  }

  // ---------------------------------------------------------------------------
  // Exact in-sample calibration
  // ---------------------------------------------------------------------------

  /** Prediction error after mapping the score through `h`, counted in one bin of the mapped score. */
  ghost function MappedError(h: real -> real, numBins: int, b: int): (real, Label) -> real
    requires numBins >= 1
  {
    (x, y: Label) => if BinOf(h(x), numBins) == b then h(x) - y as real else 0.0
  }

  function Calibrated(scores: seq<real>, k: Knots): (r: seq<real>)
    ensures |r| == |scores|
    ensures forall i | 0 <= i < |scores| :: r[i] == Lookup(scores[i], k)
  {
    seq(|scores|, i requires 0 <= i < |scores| => Lookup(scores[i], k))
  }

  lemma {:induction false} GapOfMapped(ps: seq<ScoreLabelPair>, cs: seq<ScoreLabelPair>, h: real -> real, numBins: int, b: int, n: nat)
    requires numBins >= 1 && n <= |ps| == |cs|
    requires forall i | 0 <= i < |ps| :: cs[i] == ScoreLabelPair(h(ps[i].score), ps[i].outcome)
    ensures BinGap(cs[..n], numBins, b) == Total(ps[..n], MappedError(h, numBins, b))
  {
    if n > 0 {
      GapOfMapped(ps, cs, h, numBins, b, n - 1);
      assert ps[..n] == ps[..n - 1] + [ps[n - 1]];
      assert cs[..n] == cs[..n - 1] + [cs[n - 1]];
      TotalSnoc(ps[..n - 1], ps[n - 1], MappedError(h, numBins, b));
      TotalSnoc(cs[..n - 1], cs[n - 1], BinError(numBins, b));
    }
  }

  lemma {:induction false} PooledTotalConcat(a: seq<WeightedScorePair>, b: seq<WeightedScorePair>, f: (real, Label) -> real)
    ensures PooledTotal(a + b, f) == PooledTotal(a, f) + PooledTotal(b, f)
  {
    if |b| == 0 {
      assert a + b == a;
    } else {
      assert (a + b)[..|a + b| - 1] == a + b[..|b| - 1];
      PooledTotalConcat(a, b[..|b| - 1], f);
    }
  }

  /** A block falls whole into one bin and contributes its (zero) excess there. */
  lemma {:induction false} GroupInOneBin(g: Group, h: real -> real, numBins: int, b: int, mu: real)
    requires numBins >= 1 && forall p | p in g :: h(p.score) == mu
    ensures PooledTotal(g, MappedError(h, numBins, b)) == if BinOf(mu, numBins) == b then -Excess(g, mu) else 0.0
  {
    if |g| > 0 {
      var p := g[|g| - 1];
      GroupInOneBin(g[..|g| - 1], h, numBins, b, mu);
      ExcessSnoc(g, |g|, mu);
      assert g[..|g|] == g;
      assert p in g;
      MappedTerm(p, h, numBins, b, mu);
    }
  }

  lemma MappedTerm(p: WeightedScorePair, h: real -> real, numBins: int, b: int, mu: real)
    requires numBins >= 1 && h(p.score) == mu
    ensures PooledTerm(p, MappedError(h, numBins, b)) == if BinOf(mu, numBins) == b then -Gap(p, mu) else 0.0
  {
    var s, w := p.sum as real, p.weight as real;
    assert s * (mu - 1.0) + (w - s) * (mu - 0.0) == w * mu - s;
  }

  lemma {:induction false} GroupsBalanceBins(gs: seq<Group>, h: real -> real, numBins: int, b: int)
    requires numBins >= 1 && AllProper(gs)
    requires forall i | 0 <= i < |Concat(gs)| :: h(Concat(gs)[i].score) == Values(gs)[i]
    ensures PooledTotal(Concat(gs), MappedError(h, numBins, b)) == 0.0
  {
    if |gs| > 0 {
      var init, g := gs[..|gs| - 1], gs[|gs| - 1];
      var q, v := Concat(gs), Values(gs);
      forall i | 0 <= i < |Concat(init)| ensures h(Concat(init)[i].score) == Values(init)[i] {
        assert q[i] == Concat(init)[i] && v[i] == Values(init)[i];
      }
      GroupsBalanceBins(init, h, numBins, b);
      forall p | p in g ensures h(p.score) == Mean(g) {
        var t :| 0 <= t < |g| && g[t] == p;
        assert q[|Concat(init)| + t] == p && v[|Concat(init)| + t] == Mean(g);
      }
      GroupInOneBin(g, h, numBins, b, Mean(g));
      ExcessAtMean(g);
      PooledTotalConcat(Concat(init), g, MappedError(h, numBins, b));
    }
  }

  lemma {:induction false} NoGapsNoError(ps: seq<ScoreLabelPair>, numBins: int, lo: int, hi: int)
    requires numBins >= 1 && lo <= hi && forall b :: BinGap(ps, numBins, b) == 0.0
    ensures AbsGaps(ps, numBins, lo, hi) == 0.0
    decreases hi - lo
  {
    if lo < hi {
      NoGapsNoError(ps, numBins, lo, hi - 1);
    }
  }

  lemma MappedPairs(scores: seq<real>, labels: seq<bool>, k: Knots)
    requires |scores| == |labels| && ValidKnots(k)
    ensures var ps, cs := Pairs(scores, labels), Pairs(Calibrated(scores, k), labels);
      forall i | 0 <= i < |ps| :: cs[i] == ScoreLabelPair(Lookup(ps[i].score, k), ps[i].outcome)
  {
    var ps, cs := Pairs(scores, labels), Pairs(Calibrated(scores, k), labels);
    forall i | 0 <= i < |ps| ensures cs[i] == ScoreLabelPair(Lookup(ps[i].score, k), ps[i].outcome) {
      LookupIsLinearScan(scores[i], k);
    }
  }

  /** A looked-up bin gap is the pooled error of the lookup in that bin. */
  lemma CalibratedGap(scores: seq<real>, labels: seq<bool>, k: Knots, numBins: int, b: int)
    requires |scores| == |labels| && numBins >= 1 && ValidKnots(k)
    ensures BinGap(Pairs(Calibrated(scores, k), labels), numBins, b)
         == PooledTotal(PooledPairs(Pairs(scores, labels)), MappedError(LookupMap(k), numBins, b))
  {
    var ps, cs := Pairs(scores, labels), Pairs(Calibrated(scores, k), labels);
    MappedPairs(scores, labels, k);
    GapOfMapped(ps, cs, LookupMap(k), numBins, b, |ps|);
    assert ps[..|ps|] == ps && cs[..|cs|] == cs;
    SampleTotalIsPooled(ps, MappedError(LookupMap(k), numBins, b));
  }

  lemma FittedGroupsBalance(scores: seq<real>, labels: seq<bool>, numBins: int, b: int)
    requires |scores| == |labels| > 0 && numBins >= 1
    ensures PooledTotal(PooledPairs(Pairs(scores, labels)), MappedError(FittedMap(scores, labels), numBins, b)) == 0.0
  {
    FitTabulates(scores, labels);
    GroupsBalanceBins(GroupsOf(scores, labels), FittedMap(scores, labels), numBins, b);
  }

  lemma NoGapsNoEce(scores: seq<real>, labels: seq<bool>, numBins: int)
    requires Scorable(scores, labels) && numBins >= 1
    requires forall b :: BinGap(Pairs(scores, labels), numBins, b) == 0.0
    ensures Ece(scores, labels, numBins) == 0.0
  {
    NoGapsNoError(Pairs(scores, labels), numBins, 0, numBins);
  }

  /** The fitted scores are perfectly calibrated on their own labels, for every bin count. */
  lemma FitIsCalibratedInSample(scores: seq<real>, labels: seq<bool>, numBins: int)
    requires |scores| == |labels| > 0 && numBins >= 1
    ensures Ece(Calibrated(scores, FitKnots(scores, labels)), labels, numBins) == 0.0
  {
    var k := FitKnots(scores, labels);
    FitIsWellFormed(scores, labels);
    forall b ensures BinGap(Pairs(Calibrated(scores, k), labels), numBins, b) == 0.0 {
      CalibratedGap(scores, labels, k, numBins, b);
      FittedGroupsBalance(scores, labels, numBins, b);
    }
    NoGapsNoEce(Calibrated(scores, k), labels, numBins);
  }
}
