/** The fit depends on the samples only through their relative counts. */
module IsotonicInvariance {
  import opened IsotonicPooling
  import opened IsotonicPav
  import opened IsotonicOptimality
  import opened IsotonicKnots
  import opened IsotonicFit
  import opened IsotonicTheorems

  // ---------------------------------------------------------------------------
  // Sample order and repetition
  // ---------------------------------------------------------------------------

  function Repeat(ps: seq<ScoreLabelPair>, k: nat): seq<ScoreLabelPair> {
    if k == 0 then [] else Repeat(ps, k - 1) + ps
  }

  lemma {:induction false} RepeatTotals(ps: seq<ScoreLabelPair>, k: nat, f: (real, Label) -> real)
    ensures Total(Repeat(ps, k), f) == k as real * Total(ps, f)
  {
    if k > 0 {
      RepeatTotals(ps, k - 1, f);
      TotalConcat(Repeat(ps, k - 1), ps, f);
      Distribute((k - 1) as real, 1.0, Total(ps, f));
    }
  }

  lemma {:induction false} RepeatCounts(ps: seq<ScoreLabelPair>, k: nat, p: ScoreLabelPair)
    ensures multiset(Repeat(ps, k))[p] == k * multiset(ps)[p]
  {
    if k > 0 {
      RepeatCounts(ps, k - 1, p);
      assert multiset(Repeat(ps, k)) == multiset(Repeat(ps, k - 1)) + multiset(ps);
      assert (k - 1) * multiset(ps)[p] + multiset(ps)[p] == k * multiset(ps)[p];
    }
  }

  /** `qs` holds every pair of `ps` exactly `k` times, in any order. */
  ghost predicate HoldsTimes(qs: seq<ScoreLabelPair>, ps: seq<ScoreLabelPair>, k: nat) {
    forall p :: multiset(qs)[p] == k * multiset(ps)[p]
  }

  lemma TotalOfCopies(qs: seq<ScoreLabelPair>, ps: seq<ScoreLabelPair>, k: nat, f: (real, Label) -> real)
    requires HoldsTimes(qs, ps, k)
    ensures Total(qs, f) == k as real * Total(ps, f)
  {
    var rs := Repeat(ps, k);
    forall p ensures multiset(qs)[p] == multiset(rs)[p] {
      RepeatCounts(ps, k, p);
    }
    RepeatTotals(ps, k, f);
    TotalPermutation(qs, rs, f);
  }

  /** Label and sample counts of one score. */
  ghost function WeightAt(x: real): (real, Label) -> real { (s, y) => if s == x then 1.0 else 0.0 }
  ghost function SumAt(x: real): (real, Label) -> real { (s, y: Label) => if s == x then y as real else 0.0 }

  function ScalePair(p: WeightedScorePair, k: nat): WeightedScorePair {
    WeightedScorePair(p.score, k * p.sum, k * p.weight)
  }

  /** Every pooled pair carries `k` times the weight and label sum. */
  function Scale(q: seq<WeightedScorePair>, k: nat): (r: seq<WeightedScorePair>)
    ensures |r| == |q|
    ensures forall i | 0 <= i < |q| :: r[i] == ScalePair(q[i], k)
  {
    seq(|q|, i requires 0 <= i < |q| => ScalePair(q[i], k))
  }

  lemma {:induction false} NoCountsBeyond(q: seq<WeightedScorePair>, x: real)
    requires forall i | 0 <= i < |q| :: q[i].score < x
    ensures PooledTotal(q, WeightAt(x)) == 0.0 && PooledTotal(q, SumAt(x)) == 0.0
  {
    if |q| > 0 {
      NoCountsBeyond(q[..|q| - 1], x);
    }
  }

  /** In a strictly sorted list, the counts at a score are those of its one pair. */
  lemma {:induction false} CountsAt(q: seq<WeightedScorePair>, i: nat)
    requires WellPooled(q) && i < |q|
    ensures PooledTotal(q, WeightAt(q[i].score)) == q[i].weight as real
    ensures PooledTotal(q, SumAt(q[i].score)) == q[i].sum as real
  {
    var init := q[..|q| - 1];
    if i == |q| - 1 {
      NoCountsBeyond(init, q[i].score);
    } else {
      WellPooledPrefix(q, |q| - 1);
      CountsAt(init, i);
      assert q[i].score < q[|q| - 1].score;
    }
  }

  lemma {:induction false} NoCountsElsewhere(q: seq<WeightedScorePair>, x: real)
    requires forall i | 0 <= i < |q| :: q[i].score != x
    ensures PooledTotal(q, WeightAt(x)) == 0.0
  {
    if |q| > 0 {
      NoCountsElsewhere(q[..|q| - 1], x);
    }
  }

  /** Strictly sorted lists with the same counts at every score are the same list. */
  lemma {:induction false} CountsDecide(q: seq<WeightedScorePair>, r: seq<WeightedScorePair>)
    requires WellPooled(q) && WellPooled(r)
    requires forall x :: PooledTotal(q, WeightAt(x)) == PooledTotal(r, WeightAt(x))
    requires forall x :: PooledTotal(q, SumAt(x)) == PooledTotal(r, SumAt(x))
    ensures q == r
  {
    if |q| == 0 && |r| == 0 {
    } else {
      var n, m := |q| - 1, |r| - 1;
      LastScoresAgree(q, r);
      LastScoresAgree(r, q);
      var a, b := q[n], r[m];
      CountsAt(q, n);
      CountsAt(r, m);
      assert a == b;
      WellPooledPrefix(q, n);
      WellPooledPrefix(r, m);
      CountsDecide(q[..n], r[..m]);
      assert q == q[..n] + [a] && r == r[..m] + [b];
    }
  }

  /** The greatest score of a non-empty list is reached by any list with the same counts. */
  lemma LastScoresAgree(q: seq<WeightedScorePair>, r: seq<WeightedScorePair>)
    requires WellPooled(q) && WellPooled(r)
    requires forall x :: PooledTotal(q, WeightAt(x)) == PooledTotal(r, WeightAt(x))
    ensures |q| > 0 ==> |r| > 0 && q[|q| - 1].score <= r[|r| - 1].score
  {
    if |q| > 0 {
      var a := q[|q| - 1];
      CountsAt(q, |q| - 1);
      if forall i | 0 <= i < |r| :: r[i].score != a.score {
        NoCountsElsewhere(r, a.score);
        assert false;
      }
      var i :| 0 <= i < |r| && r[i].score == a.score;
      assert i < |r| - 1 ==> r[i].score < r[|r| - 1].score;
    }
  }

  lemma {:induction false} ScaledTotals(q: seq<WeightedScorePair>, k: nat, f: (real, Label) -> real)
    ensures PooledTotal(Scale(q, k), f) == k as real * PooledTotal(q, f)
  {
    if |q| > 0 {
      var init, p := q[..|q| - 1], q[|q| - 1];
      ScaledTotals(init, k, f);
      assert Scale(q, k)[..|q| - 1] == Scale(init, k);
      ScaledTerm(p, k, f);
    }
  }

  lemma ScaledTerm(p: WeightedScorePair, k: nat, f: (real, Label) -> real)
    ensures PooledTerm(ScalePair(p, k), f) == k as real * PooledTerm(p, f)
  {
    var c, s, w, f1, f0 := k as real, p.sum as real, p.weight as real, f(p.score, 1), f(p.score, 0);
    assert (k * p.sum) as real == c * s && (k * p.weight) as real == c * w;
    assert (c * s) * f1 == c * (s * f1);
    assert (c * w - c * s) * f0 == c * ((w - s) * f0);
  }

  lemma ScaleWellPooled(q: seq<WeightedScorePair>, k: nat)
    requires WellPooled(q) && k >= 1
    ensures WellPooled(Scale(q, k))
  {
    forall i | 0 <= i < |q| ensures ScalePair(q[i], k).sum <= ScalePair(q[i], k).weight && 1 <= ScalePair(q[i], k).weight {
      ScaledPairFits(q[i], k);
    }
  }

  lemma ScaledPairFits(p: WeightedScorePair, k: nat)
    requires p.sum <= p.weight && 1 <= p.weight && k >= 1
    ensures ScalePair(p, k).sum <= ScalePair(p, k).weight && 1 <= ScalePair(p, k).weight
  {
    assert k * (p.weight - p.sum) >= 0;
  }

  lemma {:induction false} ScaledSums(g: Group, k: nat)
    ensures SumOf(Scale(g, k)) == k * SumOf(g) && WeightOf(Scale(g, k)) == k * WeightOf(g)
  {
    if |g| > 0 {
      var init, p := g[..|g| - 1], g[|g| - 1];
      ScaledSums(init, k);
      assert Scale(g, k)[..|g| - 1] == Scale(init, k);
      MulAdd(k, SumOf(init), p.sum);
      MulAdd(k, WeightOf(init), p.weight);
    }
  }

  lemma MulAdd(k: int, a: int, b: int)
    ensures k * (a + b) == k * a + k * b
  {
  }

  lemma ScaledMean(g: Group, k: nat)
    requires Proper(g) && k >= 1
    ensures Proper(Scale(g, k)) && Mean(Scale(g, k)) == Mean(g)
  {
    ScaledSums(g, k);
    assert k * WeightOf(g) > 0;
    CancelFactor(SumOf(g), WeightOf(g), k);
  }

  lemma CancelFactor(s: int, w: int, k: int)
    requires w > 0 && k > 0 && k * w > 0
    ensures (k * s) as real / (k * w) as real == s as real / w as real
  {
    var a, b, c := s as real, w as real, k as real;
    assert (k * s) as real == c * a && (k * w) as real == c * b;
    var r := a / b;
    assert r * b == a;
    assert r * (c * b) == c * a;
  }

  function ScaleGroups(gs: seq<Group>, k: nat): (rs: seq<Group>)
    ensures |rs| == |gs|
    ensures forall i | 0 <= i < |gs| :: rs[i] == Scale(gs[i], k)
  {
    seq(|gs|, i requires 0 <= i < |gs| => Scale(gs[i], k))
  }

  lemma ScaledProper(gs: seq<Group>, k: nat)
    requires AllProper(gs) && k >= 1
    ensures AllProper(ScaleGroups(gs, k))
    ensures forall i | 0 <= i < |gs| :: Mean(ScaleGroups(gs, k)[i]) == Mean(gs[i])
  {
    forall i | 0 <= i < |gs|
      ensures Proper(ScaleGroups(gs, k)[i]) && Mean(ScaleGroups(gs, k)[i]) == Mean(gs[i])
    {
      ScaledMean(gs[i], k);
    }
  }

  lemma MergeScaled(gs: seq<Group>, k: nat)
    requires AllProper(gs) && k >= 1 && |gs| >= 2
    ensures MergeLast(ScaleGroups(gs, k)) == ScaleGroups(MergeLast(gs), k)
  {
    var n := |gs|;
    assert Scale(gs[n - 2] + gs[n - 1], k) == Scale(gs[n - 2], k) + Scale(gs[n - 1], k);
    var m, r := MergeLast(ScaleGroups(gs, k)), ScaleGroups(MergeLast(gs), k);
    assert m[..n - 2] == ScaleGroups(gs, k)[..n - 2] == r[..n - 2];
    assert m[n - 2] == r[n - 2];
    assert m == m[..n - 2] + [m[n - 2]] && r == r[..n - 2] + [r[n - 2]];
  }

  lemma {:induction false} SettleScaled(gs: seq<Group>, k: nat)
    requires AllProper(gs) && k >= 1
    ensures Settle(ScaleGroups(gs, k)) == ScaleGroups(Settle(gs), k)
    decreases |gs|
  {
    ScaledProper(gs, k);
    assert Descends(ScaleGroups(gs, k)) == Descends(gs);
    if Descends(gs) {
      MergeScaled(gs, k);
      SettleScaled(MergeLast(gs), k);
    }
  }

  lemma PushScaled(gs: seq<Group>, p: WeightedScorePair, k: nat)
    requires AllProper(gs) && k >= 1 && p.weight >= 1
    ensures Settle(ScaleGroups(gs, k) + [[ScalePair(p, k)]]) == ScaleGroups(Settle(gs + [[p]]), k)
  {
    var pushed := gs + [[p]];
    assert Scale([p], k) == [ScalePair(p, k)];
    assert ScaleGroups(pushed, k) == ScaleGroups(gs, k) + [[ScalePair(p, k)]];
    SingleSums(p);
    SettleScaled(pushed, k);
  }

  lemma {:induction false} PavGroupsScaled(q: seq<WeightedScorePair>, r: seq<WeightedScorePair>, k: nat)
    requires AllWeighted(q) && k >= 1 && |q| == |r|
    requires forall i | 0 <= i < |q| :: r[i] == ScalePair(q[i], k)
    ensures PavGroups(r) == ScaleGroups(PavGroups(q), k)
  {
    if |q| == 0 {
      assert ScaleGroups([], k) == [];
    } else {
      var n := |q| - 1;
      PavGroupsScaled(q[..n], r[..n], k);
      PushScaled(PavGroups(q[..n]), q[n], k);
    }
  }

  lemma EmitScaled(gs: seq<Group>, k: nat)
    requires AllProper(gs) && AllProper(ScaleGroups(gs, k)) && |gs| > 0 && k >= 1
    requires AllProper(gs[..|gs| - 1]) && AllProper(ScaleGroups(gs[..|gs| - 1], k))
    ensures EmitBlocks(BlocksOf(gs)) == EmitBlock(EmitBlocks(BlocksOf(gs[..|gs| - 1])), BlockOf(gs[|gs| - 1]))
    ensures EmitBlocks(BlocksOf(ScaleGroups(gs, k)))
         == EmitBlock(EmitBlocks(BlocksOf(ScaleGroups(gs[..|gs| - 1], k))), BlockOf(Scale(gs[|gs| - 1], k)))
  {
    var rs := ScaleGroups(gs, k);
    assert rs[..|rs| - 1] == ScaleGroups(gs[..|gs| - 1], k);
    var bs, cs := BlocksOf(gs), BlocksOf(rs);
    assert bs[..|bs| - 1] == BlocksOf(gs[..|gs| - 1]);
    assert cs[..|cs| - 1] == BlocksOf(rs[..|rs| - 1]);
  }

  lemma ScaledBlockEmits(t: Knots, g: Group, k: nat)
    requires Proper(g) && Proper(Scale(g, k)) && k >= 1 && |t.xs| == |t.ys|
    ensures EmitBlock(t, BlockOf(Scale(g, k))) == EmitBlock(t, BlockOf(g))
  {
    ScaledMean(g, k);
  }

  lemma {:induction false} EmissionScaled(gs: seq<Group>, k: nat)
    requires AllProper(gs) && k >= 1
    ensures AllProper(ScaleGroups(gs, k))
    ensures EmitBlocks(BlocksOf(ScaleGroups(gs, k))) == EmitBlocks(BlocksOf(gs))
  {
    ScaledProper(gs, k);
    if |gs| > 0 {
      var init := gs[..|gs| - 1];
      EmissionScaled(init, k);
      EmitScaled(gs, k);
      ScaledBlockEmits(EmitBlocks(BlocksOf(init)), gs[|gs| - 1], k);
    }
  }

  /** Copying every pooled count `k` times leaves the knots as they are. */
  lemma KnotsScaled(q: seq<WeightedScorePair>, k: nat)
    requires WellPooled(q) && k >= 1
    ensures AllProper(PavGroups(Scale(q, k)))
    ensures KnotsOf(PavGroups(Scale(q, k))) == KnotsOf(PavGroups(q))
  {
    ScaleWellPooled(q, k);
    PavGroupsScaled(q, Scale(q, k), k);
    assert q[..|q|] == q && Scale(q, k)[..|q|] == Scale(q, k);
    EmissionScaled(PavGroups(q), k);
  }

  lemma PooledOfCopies(qs: seq<ScoreLabelPair>, ps: seq<ScoreLabelPair>, k: nat)
    requires forall p | p in ps :: 0.0 <= p.score <= 1.0
    requires forall p | p in qs :: 0.0 <= p.score <= 1.0
    requires HoldsTimes(qs, ps, k) && k >= 1
    ensures PooledPairs(qs) == Scale(PooledPairs(ps), k)
  {
    var q, r := PooledPairs(ps), PooledPairs(qs);
    ScaleWellPooled(q, k);
    forall x
      ensures PooledTotal(r, WeightAt(x)) == PooledTotal(Scale(q, k), WeightAt(x))
      ensures PooledTotal(r, SumAt(x)) == PooledTotal(Scale(q, k), SumAt(x))
    {
      CopiesAgree(qs, ps, k, WeightAt(x));
      CopiesAgree(qs, ps, k, SumAt(x));
    }
    CountsDecide(r, Scale(q, k));
  }

  lemma CopiesAgree(qs: seq<ScoreLabelPair>, ps: seq<ScoreLabelPair>, k: nat, f: (real, Label) -> real)
    requires forall p | p in ps :: 0.0 <= p.score <= 1.0
    requires forall p | p in qs :: 0.0 <= p.score <= 1.0
    requires HoldsTimes(qs, ps, k)
    ensures PooledTotal(PooledPairs(qs), f) == PooledTotal(Scale(PooledPairs(ps), k), f)
  {
    var q, r := PooledPairs(ps), PooledPairs(qs);
    calc {
      PooledTotal(r, f);
      { SampleTotalIsPooled(qs, f); }
      Total(qs, f);
      { TotalOfCopies(qs, ps, k, f); }
      k as real * Total(ps, f);
      { SampleTotalIsPooled(ps, f); }
      k as real * PooledTotal(q, f);
      { ScaledTotals(q, k, f); }
      PooledTotal(Scale(q, k), f);
    }
  }

  /**
   * The knots do not depend on the order of the samples, nor on repeating every sample
   * `k >= 1` times.
   */
  lemma FitIgnoresOrderAndCopies(scores: seq<real>, labels: seq<bool>, scores': seq<real>, labels': seq<bool>, k: nat)
    requires |scores| == |labels| && |scores'| == |labels'| && k >= 1
    requires HoldsTimes(Pairs(scores', labels'), Pairs(scores, labels), k)
    ensures FitKnots(scores', labels') == FitKnots(scores, labels)
  {
    var ps, qs := Pairs(scores, labels), Pairs(scores', labels');
    PooledOfCopies(qs, ps, k);
    KnotsScaled(PooledPairs(ps), k);
    EmptyTogether(qs, ps, k);
  }

  lemma EmptyTogether(qs: seq<ScoreLabelPair>, ps: seq<ScoreLabelPair>, k: nat)
    requires HoldsTimes(qs, ps, k) && k >= 1
    ensures |qs| == 0 <==> |ps| == 0
  {
    if |ps| > 0 {
      assert ps[0] in multiset(ps);
      assert k * multiset(ps)[ps[0]] > 0;
      assert ps[0] in multiset(qs);
    }
    if |qs| > 0 {
      assert qs[0] in multiset(qs);
      assert k * multiset(ps)[qs[0]] > 0;
      assert qs[0] in multiset(ps);
    }
  }
}
