/** The whole isotonic fit, from raw scores and labels to a normalised knot table. */
module IsotonicFit {
  import opened Sorting
  import opened IsotonicPooling
  import opened IsotonicPav
  import opened IsotonicOptimality
  import opened IsotonicKnots

  /** The samples as the fit sees them: scores clamped to [0, 1], labels as 0 or 1. */
  function Pairs(scores: seq<real>, labels: seq<bool>): (ps: seq<ScoreLabelPair>)
    requires |scores| == |labels|
    ensures |ps| == |scores|
    ensures forall p | p in ps :: 0.0 <= p.score <= 1.0
  {
    seq(|scores|, i requires 0 <= i < |scores| => ScoreLabelPair(Clamp01(scores[i]), LabelValue(labels[i])))
  }

  function PooledPairs(ps: seq<ScoreLabelPair>): (q: seq<WeightedScorePair>)
    requires forall p | p in ps :: 0.0 <= p.score <= 1.0
    ensures WellPooled(q)
    ensures |ps| > 0 ==> |q| > 0
  {
    var sorted := Sort(ps, PairLeq);
    assert WellPooled(Pool(sorted)) by {
      PairLeqIsTotal();
      SortSorts(ps, PairLeq);
      forall p | p in sorted ensures p in ps {
        assert p in multiset(sorted);
      }
      PoolWellPooled(sorted);
    }
    Pool(sorted)
  }

  function GroupsOf(scores: seq<real>, labels: seq<bool>): (gs: seq<Group>)
    requires |scores| == |labels|
    ensures AllProper(gs)
    ensures Concat(gs) == PooledPairs(Pairs(scores, labels))
    ensures |scores| > 0 ==> |gs| > 0
  {
    assert AllWeighted(PooledPairs(Pairs(scores, labels)));
    PavGroups(PooledPairs(Pairs(scores, labels)))
  }

  function KnotsOf(gs: seq<Group>): Knots
    requires AllProper(gs)
  {
    NormalizeKnots(EmitBlocks(BlocksOf(gs)))
  }

  function FitKnots(scores: seq<real>, labels: seq<bool>): Knots {
    if |scores| == 0 || |scores| != |labels| then IDENTITY_KNOTS else KnotsOf(GroupsOf(scores, labels))
  }

  method FitIsotonicPAV(scores: seq<real>, labels: seq<bool>) returns (k: Knots)
    ensures k == FitKnots(scores, labels)
  {
    if |scores| == 0 || |scores| != |labels| {
      return IDENTITY_KNOTS;
    }
    var pairs := Pairs(scores, labels);
    ghost var q := PooledPairs(pairs);
    pairs := Sort(pairs, PairLeq);
    assert Pool(pairs) == q;
    var pooledPairs := PoolIdenticalScores(pairs);
    var blocks := PoolAdjacentViolators(pooledPairs);
    FinishedStack(pooledPairs);
    k := BuildKnots(blocks);
  }

  // ---------------------------------------------------------------------------
  // Emission never collides, and tabulates every block
  // ---------------------------------------------------------------------------

  ghost predicate StrictlyIncreasing(s: seq<real>) {
    forall i, j | 0 <= i < j < |s| :: s[i] < s[j]
  }

  /** Knot `j` covers the score `s` with value `y`. */
  ghost predicate ServedBy(k: Knots, s: real, y: real, j: nat)
    requires |k.xs| == |k.ys|
  {
    j < |k.xs| && k.xs[j] <= s && (j + 1 < |k.xs| ==> s < k.xs[j + 1]) && k.ys[j] == y
  }

  ghost predicate Serves(k: Knots, s: real, y: real)
    requires |k.xs| == |k.ys|
  {
    exists j :: ServedBy(k, s, y, j)
  }

  /** The knots run strictly upwards over the scores of `q` and carry the values `v`. */
  ghost predicate Tabulates(k: Knots, q: seq<WeightedScorePair>, v: seq<real>) {
    && |k.xs| == |k.ys| > 0 && |q| == |v| > 0
    && StrictlyIncreasing(k.xs) && NonDecreasing(k.ys) && InUnit(k.ys)
    && k.xs[0] == q[0].score && k.xs[|k.xs| - 1] == q[|q| - 1].score
    && k.ys[|k.ys| - 1] == v[|v| - 1]
    && forall i | 0 <= i < |q| :: Serves(k, q[i].score, v[i])
  }

  /** Emission with no knot ever averaged into another. */
  function EmitPlain(k: Knots, b: PavBlock): Knots
    requires b.weight > 0
  {
    var y := BlockAverage(b);
    if b.maxScore != b.minScore then Knots(k.xs + [b.minScore, b.maxScore], k.ys + [y, y])
    else Knots(k.xs + [b.minScore], k.ys + [y])
  }

  ghost predicate NoCollision(k: Knots, b: PavBlock)
    requires |k.xs| == |k.ys| && b.weight > 0
  {
    && !Collides(k, b.minScore)
    && (b.maxScore != b.minScore ==> !Collides(PushKnot(k, b.minScore, BlockAverage(b)), b.maxScore))
  }

  lemma EmitIsPlain(k: Knots, b: PavBlock)
    requires |k.xs| == |k.ys| && b.weight > 0
    requires 0.0 <= b.minScore <= b.maxScore <= 1.0
    requires |k.xs| > 0 ==> k.xs[|k.xs| - 1] < b.minScore
    ensures NoCollision(k, b) && EmitBlock(k, b) == EmitPlain(k, b)
  {
    var y := BlockAverage(b);
    assert PushKnot(k, b.minScore, y) == Knots(k.xs + [b.minScore], k.ys + [y]);
    if b.maxScore != b.minScore {
      var first := PushKnot(k, b.minScore, y);
      assert PushKnot(first, b.maxScore, y) == Knots(first.xs + [b.maxScore], first.ys + [y]);
      assert first.xs + [b.maxScore] == k.xs + [b.minScore, b.maxScore];
      assert first.ys + [y] == k.ys + [y, y];
    }
  }

  lemma BlockFacts(g: Group)
    requires Proper(g) && WellPooled(g)
    ensures BlockOf(g).minScore <= BlockOf(g).maxScore
    ensures BlockOf(g).minScore == BlockOf(g).maxScore <==> |g| == 1
    ensures 0.0 <= Mean(g) <= 1.0 && BlockAverage(BlockOf(g)) == Mean(g)
  {
    SumsBounded(g);
    MeanVersusLevel(g, 0.0);
    MeanVersusLevel(g, 1.0);
    if |g| > 1 {
      assert g[0].score < g[|g| - 1].score;
    }
  }

  lemma ServesOld(k: Knots, b: PavBlock, s: real, y: real)
    requires |k.xs| == |k.ys| > 0 && b.weight > 0 && Serves(k, s, y) && s < b.minScore
    ensures Serves(EmitPlain(k, b), s, y)
  {
    var j :| ServedBy(k, s, y, j);
    assert ServedBy(EmitPlain(k, b), s, y, j);
  }

  lemma ServesNew(k: Knots, b: PavBlock, s: real)
    requires |k.xs| == |k.ys| && b.weight > 0 && b.minScore <= s <= b.maxScore
    ensures Serves(EmitPlain(k, b), s, BlockAverage(b))
  {
    var r := EmitPlain(k, b);
    assert ServedBy(r, s, BlockAverage(b), if s == b.maxScore then |r.xs| - 1 else |k.xs|);
  }

  lemma ServesAll(k: Knots, q: seq<WeightedScorePair>, v: seq<real>, g: Group, i: nat)
    requires |k.xs| == |k.ys| && |q| == |v| && (|q| > 0 ==> |k.xs| > 0)
    requires forall i | 0 <= i < |q| :: Serves(k, q[i].score, v[i])
    requires Proper(g) && WellPooled(q + g) && i < |q + g|
    requires BlockAverage(BlockOf(g)) == Mean(g)
    ensures Serves(EmitPlain(k, BlockOf(g)), (q + g)[i].score, (v + Constant(|g|, Mean(g)))[i])
  {
    var q' := q + g;
    if i < |q| {
      assert q'[i].score < q'[|q|].score;
      assert Serves(k, q[i].score, v[i]);
      ServesOld(k, BlockOf(g), q[i].score, v[i]);
    } else {
      assert i > |q| ==> q'[|q|].score < q'[i].score;
      assert i < |q'| - 1 ==> q'[i].score < q'[|q'| - 1].score;
      ServesNew(k, BlockOf(g), q'[i].score);
    }
  }

  lemma WellPooledSuffix(q: seq<WeightedScorePair>, g: Group)
    requires WellPooled(q + g)
    ensures WellPooled(g)
    ensures |q| > 0 && |g| > 0 ==> q[|q| - 1].score < g[0].score
  {
    var q' := q + g;
    assert forall i | 0 <= i < |g| :: g[i] == q'[|q| + i];
    if |q| > 0 && |g| > 0 {
      assert q'[|q| - 1].score < q'[|q|].score;
    }
  }

  lemma TabulatesGrows(k: Knots, q: seq<WeightedScorePair>, v: seq<real>, g: Group)
    requires |q| == 0 ==> k == Knots([], []) && v == []
    requires |q| > 0 ==> Tabulates(k, q, v)
    requires Proper(g) && WellPooled(q + g)
    requires |v| > 0 ==> v[|v| - 1] <= Mean(g)
    ensures NoCollision(k, BlockOf(g))
    ensures Tabulates(EmitBlock(k, BlockOf(g)), q + g, v + Constant(|g|, Mean(g)))
  {
    WellPooledSuffix(q, g);
    BlockFacts(g);
    EmitIsPlain(k, BlockOf(g));
    forall i | 0 <= i < |q + g|
      ensures Serves(EmitPlain(k, BlockOf(g)), (q + g)[i].score, (v + Constant(|g|, Mean(g)))[i])
    {
      ServesAll(k, q, v, g, i);
    }
    AppendOrder(k, BlockOf(g));
  }

  lemma AppendOrder(k: Knots, b: PavBlock)
    requires |k.xs| == |k.ys| && b.weight > 0 && b.minScore <= b.maxScore
    requires StrictlyIncreasing(k.xs) && NonDecreasing(k.ys)
    requires |k.xs| > 0 ==> k.xs[|k.xs| - 1] < b.minScore && k.ys[|k.ys| - 1] <= BlockAverage(b)
    requires InUnit(k.ys)
    ensures StrictlyIncreasing(EmitPlain(k, b).xs) && NonDecreasing(EmitPlain(k, b).ys)
    ensures InUnit(EmitPlain(k, b).ys)
    ensures EmitPlain(k, b).xs[0] == if |k.xs| > 0 then k.xs[0] else b.minScore
    ensures EmitPlain(k, b).xs[|EmitPlain(k, b).xs| - 1] == b.maxScore
    ensures EmitPlain(k, b).ys[|EmitPlain(k, b).ys| - 1] == BlockAverage(b)
  {
    var n := |k.xs|;
    assert forall i | 0 <= i < n - 1 :: k.xs[i] < k.xs[n - 1] && k.ys[i] <= k.ys[n - 1];
  }

  ghost predicate NoCollisions(bs: seq<PavBlock>)
    requires forall b | b in bs :: b.weight > 0
  {
    forall i | 0 <= i < |bs| :: NoCollision(EmitBlocks(bs[..i]), bs[i])
  }

  lemma ConcatSnoc(gs: seq<Group>, g: Group)
    ensures Concat(gs + [g]) == Concat(gs) + g
    ensures Values(gs + [g]) == Values(gs) + Constant(|g|, Mean(g))
  {
    assert (gs + [g])[..|gs|] == gs;
  }

  lemma EmittedSoFar(gs: seq<Group>, g: Group)
    requires AllProper(gs)
    requires |gs| > 0 ==> Tabulates(EmitBlocks(BlocksOf(gs)), Concat(gs), Values(gs)) && Mean(gs[|gs| - 1]) <= Mean(g)
    ensures |Concat(gs)| == 0 ==> EmitBlocks(BlocksOf(gs)) == Knots([], []) && Values(gs) == []
    ensures |Concat(gs)| > 0 ==> Tabulates(EmitBlocks(BlocksOf(gs)), Concat(gs), Values(gs))
    ensures |Values(gs)| > 0 ==> Values(gs)[|Values(gs)| - 1] <= Mean(g)
  {
    if |gs| > 0 {
      LastValue(gs);
    }
  }

  lemma NextTabulates(gs: seq<Group>, g: Group)
    requires AllProper(gs) && Proper(g) && WellPooled(Concat(gs + [g]))
    requires |gs| > 0 ==> Tabulates(EmitBlocks(BlocksOf(gs)), Concat(gs), Values(gs)) && Mean(gs[|gs| - 1]) <= Mean(g)
    ensures NoCollision(EmitBlocks(BlocksOf(gs)), BlockOf(g))
    ensures Tabulates(EmitBlock(EmitBlocks(BlocksOf(gs)), BlockOf(g)), Concat(gs + [g]), Values(gs + [g]))
  {
    ConcatSnoc(gs, g);
    EmittedSoFar(gs, g);
    TabulatesGrows(EmitBlocks(BlocksOf(gs)), Concat(gs), Values(gs), g);
  }

  lemma EmissionStep(gs: seq<Group>, g: Group)
    requires AllProper(gs) && Proper(g) && WellPooled(Concat(gs + [g]))
    requires NoCollisions(BlocksOf(gs))
    requires |gs| > 0 ==> Tabulates(EmitBlocks(BlocksOf(gs)), Concat(gs), Values(gs)) && Mean(gs[|gs| - 1]) <= Mean(g)
    ensures AllProper(gs + [g]) && NoCollisions(BlocksOf(gs + [g]))
    ensures Tabulates(EmitBlocks(BlocksOf(gs + [g])), Concat(gs + [g]), Values(gs + [g]))
  {
    NextTabulates(gs, g);
    EmissionSnoc(gs, g);
  }

  lemma {:induction false} EmissionTabulates(gs: seq<Group>)
    requires AllProper(gs) && Ascending(gs) && WellPooled(Concat(gs)) && |gs| > 0
    ensures Tabulates(EmitBlocks(BlocksOf(gs)), Concat(gs), Values(gs))
    ensures NoCollisions(BlocksOf(gs))
  {
    var init, g := gs[..|gs| - 1], gs[|gs| - 1];
    assert gs == init + [g];
    WithoutLast(init, g);
    if |init| > 0 {
      EmissionTabulates(init);
    }
    EmissionStep(init, g);
  }

  lemma WithoutLast(init: seq<Group>, g: Group)
    requires AllProper(init + [g]) && Ascending(init + [g]) && WellPooled(Concat(init + [g]))
    ensures AllProper(init) && Proper(g) && Ascending(init) && WellPooled(Concat(init))
    ensures |init| > 0 ==> Mean(init[|init| - 1]) <= Mean(g)
  {
    var gs := init + [g];
    assert forall i | 0 <= i < |init| :: gs[i] == init[i];
    assert gs[|init|] == g;
    ConcatSnoc(init, g);
    WellPooledPrefix(Concat(gs), |Concat(init)|);
    assert Concat(init) == Concat(gs)[..|Concat(init)|];
  }

  lemma EmissionSnoc(gs: seq<Group>, g: Group)
    requires AllProper(gs) && Proper(g)
    requires NoCollisions(BlocksOf(gs)) && NoCollision(EmitBlocks(BlocksOf(gs)), BlockOf(g))
    ensures AllProper(gs + [g])
    ensures EmitBlocks(BlocksOf(gs + [g])) == EmitBlock(EmitBlocks(BlocksOf(gs)), BlockOf(g))
    ensures NoCollisions(BlocksOf(gs + [g]))
  {
    assert (gs + [g])[..|gs|] == gs;
    NoCollisionsSnoc(BlocksOf(gs), BlockOf(g));
    BlocksSnoc(gs, g);
  }

  lemma NoCollisionsSnoc(bs: seq<PavBlock>, b: PavBlock)
    requires (forall b | b in bs :: b.weight > 0) && b.weight > 0
    requires NoCollisions(bs) && NoCollision(EmitBlocks(bs), b)
    ensures EmitBlocks(bs + [b]) == EmitBlock(EmitBlocks(bs), b)
    ensures NoCollisions(bs + [b])
  {
    var bs' := bs + [b];
    assert bs'[..|bs|] == bs;
    forall i | 0 <= i < |bs'| ensures NoCollision(EmitBlocks(bs'[..i]), bs'[i]) {
      assert bs'[..i] == bs[..i];
    }
    assert bs[..|bs|] == bs;
  }

  lemma LastValue(gs: seq<Group>)
    requires AllProper(gs) && |gs| > 0
    ensures |Values(gs)| > 0 && Values(gs)[|Values(gs)| - 1] == Mean(gs[|gs| - 1])
  {
  }
}
