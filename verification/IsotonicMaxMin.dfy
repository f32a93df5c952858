/** The block means as a formula: greatest over starts of least over ends of the label mean. */
module IsotonicMaxMin {
  import opened IsotonicPooling
  import opened IsotonicPav
  import opened IsotonicOptimality

  /** Weighted label mean of the pairs `j..k`, both ends included. */
  function RangeMean(q: seq<WeightedScorePair>, j: nat, k: nat): real
    requires j <= k < |q|
  {
    Mean(q[j..k + 1])
  }

  /** Least range mean starting at `j` and ending at some `k'` with `i <= k' <= k`. */
  function MinMean(q: seq<WeightedScorePair>, j: nat, i: nat, k: nat): real
    requires j <= i <= k < |q|
  {
    if k == i then RangeMean(q, j, k) else Min(MinMean(q, j, i, k - 1), RangeMean(q, j, k))
  }

  function MinOverEnds(q: seq<WeightedScorePair>, i: nat, j: nat): real
    requires j <= i < |q|
  {
    MinMean(q, j, i, |q| - 1)
  }

  /** Greatest of those minima over starts `j' <= j`. */
  function MaxMinMean(q: seq<WeightedScorePair>, i: nat, j: nat): real
    requires j <= i < |q|
  {
    if j == 0 then MinOverEnds(q, i, j) else Max(MaxMinMean(q, i, j - 1), MinOverEnds(q, i, j))
  }

  lemma {:induction false} MinMeanBounds(q: seq<WeightedScorePair>, j: nat, i: nat, k: nat, mu: real)
    requires j <= i <= k < |q|
    ensures (forall t | i <= t <= k :: RangeMean(q, j, t) >= mu) ==> MinMean(q, j, i, k) >= mu
    ensures forall t | i <= t <= k :: MinMean(q, j, i, k) <= RangeMean(q, j, t)
  {
    if k > i {
      MinMeanBounds(q, j, i, k - 1, mu);
    }
  }

  lemma {:induction false} MaxMinMeanIs(q: seq<WeightedScorePair>, i: nat, j: nat, mu: real)
    requires j <= i < |q|
    requires forall t | 0 <= t <= j :: MinOverEnds(q, i, t) <= mu
    ensures MaxMinMean(q, i, j) <= mu
    ensures (exists t | 0 <= t <= j :: MinOverEnds(q, i, t) >= mu) ==> MaxMinMean(q, i, j) == mu
  {
    if j > 0 {
      MaxMinMeanIs(q, i, j - 1, mu);
    }
  }

  lemma GapFalls(p: WeightedScorePair, lo: real, hi: real)
    requires lo <= hi
    ensures Gap(p, hi) <= Gap(p, lo)
  {
    assert p.weight as real * lo <= p.weight as real * hi;
  }

  /** Against a level below (above) the fit, a range has at least (at most) its residual move. */
  lemma {:induction false} RangeExcess(q: seq<WeightedScorePair>, v: seq<real>, j: nat, k: nat, mu: real)
    requires j <= k <= |q| == |v|
    ensures (forall t | j <= t < k :: v[t] >= mu) ==>
              Excess(q[j..k], mu) >= Residual(q, v, k) - Residual(q, v, j)
    ensures (forall t | j <= t < k :: v[t] <= mu) ==>
              Excess(q[j..k], mu) <= Residual(q, v, k) - Residual(q, v, j)
  {
    if j < k {
      RangeExcess(q, v, j, k - 1, mu);
      var g := q[j..k];
      assert g[..|g|] == g && g[..|g| - 1] == q[j..k - 1];
      ExcessSnoc(g, |g|, mu);
      if v[k - 1] >= mu {
        GapFalls(q[k - 1], mu, v[k - 1]);
      }
      if v[k - 1] <= mu {
        GapFalls(q[k - 1], v[k - 1], mu);
      }
    }
  }

  lemma StretchMeanAbove(q: seq<WeightedScorePair>, v: seq<real>, a: nat, k: nat, mu: real)
    requires WellPooled(q) && Certificate(q, v) && a <= k < |q|
    requires Residual(q, v, a) == 0.0 && forall t | a <= t <= k :: v[t] >= mu
    ensures RangeMean(q, a, k) >= mu
  {
    RangeExcess(q, v, a, k + 1, mu);
    MeanVersusLevel(q[a..k + 1], mu);
  }

  lemma StretchMeanBelow(q: seq<WeightedScorePair>, v: seq<real>, j: nat, k: nat, mu: real)
    requires WellPooled(q) && Certificate(q, v) && j <= k < |q|
    requires Residual(q, v, k + 1) == 0.0 && forall t | j <= t <= k :: v[t] <= mu
    ensures RangeMean(q, j, k) <= mu
  {
    RangeExcess(q, v, j, k + 1, mu);
    MeanVersusLevel(q[j..k + 1], mu);
  }

  lemma StretchIsMaxMin(q: seq<WeightedScorePair>, v: seq<real>, i: nat, a: nat, b: nat)
    requires WellPooled(q) && Certificate(q, v) && a <= i < b <= |q|
    requires Residual(q, v, a) == 0.0 && Residual(q, v, b) == 0.0
    requires forall t | a <= t < b :: v[t] == v[i]
    ensures v[i] == MaxMinMean(q, i, i)
  {
    StretchStartReaches(q, v, i, a, b);
    forall j | 0 <= j <= i ensures MinOverEnds(q, i, j) <= v[i] {
      StretchEndCaps(q, v, i, a, b, j);
    }
    MaxMinMeanIs(q, i, i, v[i]);
  }

  /** Starting at the stretch's first pair, no end brings the mean below the level. */
  lemma StretchStartReaches(q: seq<WeightedScorePair>, v: seq<real>, i: nat, a: nat, b: nat)
    requires WellPooled(q) && Certificate(q, v) && a <= i < b <= |q|
    requires Residual(q, v, a) == 0.0
    requires forall t | a <= t < b :: v[t] == v[i]
    ensures MinOverEnds(q, i, a) >= v[i]
  {
    forall k | i <= k < |q| ensures RangeMean(q, a, k) >= v[i] {
      StretchMeanAbove(q, v, a, k, v[i]);
    }
    MinMeanBounds(q, a, i, |q| - 1, v[i]);
  }

  /** From any start, ending at the stretch's last pair brings the mean down to the level. */
  lemma StretchEndCaps(q: seq<WeightedScorePair>, v: seq<real>, i: nat, a: nat, b: nat, j: nat)
    requires WellPooled(q) && Certificate(q, v) && a <= i < b <= |q| && j <= i
    requires Residual(q, v, b) == 0.0
    requires forall t | a <= t < b :: v[t] == v[i]
    ensures MinOverEnds(q, i, j) <= v[i]
  {
    StretchMeanBelow(q, v, j, b - 1, v[i]);
    MinMeanBounds(q, j, i, |q| - 1, v[i]);
  }

  /** A certified fit has exactly the max-min values. */
  lemma CertifiedIsMaxMin(q: seq<WeightedScorePair>, v: seq<real>, i: nat)
    requires WellPooled(q) && Certificate(q, v) && AllBalanced(q, v) && i < |q|
    ensures v[i] == MaxMinMean(q, i, i)
  {
    assert Balanced(q, v, i);
    var a: nat, b: nat :| a <= i < b <= |q| && Residual(q, v, a) == 0.0 && Residual(q, v, b) == 0.0
      && forall t | a <= t < b :: v[t] == v[i];
    StretchIsMaxMin(q, v, i, a, b);
  }

  /** The stack's block means are the max-min means of the pooled pairs. */
  lemma PavIsMaxMin(q: seq<WeightedScorePair>, i: nat)
    requires WellPooled(q) && i < |q|
    ensures Values(PavGroups(q))[i] == MaxMinMean(q, i, i)
  {
    PavInvariant(q);
    ValuesCertified(PavGroups(q));
    CertifiedIsMaxMin(q, Values(PavGroups(q)), i);
  }
}
