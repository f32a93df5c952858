/** What a fitted table serves at every score, as rates of the samples themselves. */
module IsotonicServing {
  import opened IsotonicPooling
  import opened IsotonicPav
  import opened IsotonicOptimality
  import opened IsotonicMaxMin
  import opened IsotonicKnots
  import opened IsotonicFit
  import opened IsotonicLookup
  import opened IsotonicTheorems

  // ---------------------------------------------------------------------------
  // Knots come from pooled pairs
  // ---------------------------------------------------------------------------

  ghost predicate HasValue(v: seq<real>, y: real) { exists i | 0 <= i < |v| :: v[i] == y }

  /** Every x-knot is a pooled score and every y-knot a fitted value. */
  ghost predicate DrawnFrom(k: Knots, q: seq<WeightedScorePair>, v: seq<real>) {
    (forall x | x in k.xs :: HasScore(q, x)) && forall y | y in k.ys :: HasValue(v, y)
  }

  lemma DrawnGrows(k: Knots, q: seq<WeightedScorePair>, v: seq<real>, g: Group)
    requires |k.xs| == |k.ys| && DrawnFrom(k, q, v) && Proper(g) && BlockAverage(BlockOf(g)) == Mean(g)
    ensures DrawnFrom(EmitPlain(k, BlockOf(g)), q + g, v + Constant(|g|, Mean(g)))
  {
    var r, q', v' := EmitPlain(k, BlockOf(g)), q + g, v + Constant(|g|, Mean(g));
    forall x | x in r.xs ensures HasScore(q', x) {
      if x in k.xs {
        var i :| 0 <= i < |q| && q[i].score == x;
        assert q'[i].score == x;
      } else {
        assert q'[|q|].score == g[0].score && q'[|q'| - 1].score == g[|g| - 1].score;
      }
    }
    forall y | y in r.ys ensures HasValue(v', y) {
      if y in k.ys {
        var i :| 0 <= i < |v| && v[i] == y;
        assert v'[i] == y;
      } else {
        assert v'[|v|] == Mean(g);
      }
    }
  }

  lemma NextBlockFits(k: Knots, q: seq<WeightedScorePair>, v: seq<real>, g: Group)
    requires |q| > 0 ==> Tabulates(k, q, v)
    requires |q| == 0 ==> k == Knots([], [])
    requires Proper(g) && WellPooled(q + g)
    ensures NoCollision(k, BlockOf(g)) && EmitBlock(k, BlockOf(g)) == EmitPlain(k, BlockOf(g))
    ensures BlockAverage(BlockOf(g)) == Mean(g)
  {
    WellPooledSuffix(q, g);
    BlockFacts(g);
    EmitIsPlain(k, BlockOf(g));
  }

  lemma EmittedPlainly(gs: seq<Group>, g: Group)
    requires AllProper(gs) && Proper(g) && WellPooled(Concat(gs + [g])) && NoCollisions(BlocksOf(gs))
    requires |gs| > 0 ==> Tabulates(EmitBlocks(BlocksOf(gs)), Concat(gs), Values(gs)) && Mean(gs[|gs| - 1]) <= Mean(g)
    ensures BlockAverage(BlockOf(g)) == Mean(g)
    ensures AllProper(gs + [g]) && EmitBlocks(BlocksOf(gs + [g])) == EmitPlain(EmitBlocks(BlocksOf(gs)), BlockOf(g))
  {
    ConcatSnoc(gs, g);
    EmittedSoFar(gs, g);
    NextBlockFits(EmitBlocks(BlocksOf(gs)), Concat(gs), Values(gs), g);
    EmissionSnoc(gs, g);
  }

  lemma {:induction false} EmissionDraws(gs: seq<Group>)
    requires AllProper(gs) && Ascending(gs) && WellPooled(Concat(gs))
    ensures DrawnFrom(EmitBlocks(BlocksOf(gs)), Concat(gs), Values(gs))
  {
    if |gs| > 0 {
      var init, g := gs[..|gs| - 1], gs[|gs| - 1];
      assert gs == init + [g];
      WithoutLast(init, g);
      EmissionDraws(init);
      if |init| > 0 {
        EmissionTabulates(init);
      }
      EmittedPlainly(init, g);
      ConcatSnoc(init, g);
      DrawnGrows(EmitBlocks(BlocksOf(init)), Concat(init), Values(init), g);
    }
  }

  // ---------------------------------------------------------------------------
  // Serving between and beyond the pooled scores
  // ---------------------------------------------------------------------------

  /** Pair `i` is the last at or below `s`, or the first of all when none is. */
  ghost predicate ServesAt(q: seq<WeightedScorePair>, s: real, i: nat) {
    && i < |q|
    && (q[i].score <= s || i == 0)
    && (i + 1 < |q| ==> s < q[i + 1].score)
  }

  lemma {:induction false} SomeServes(q: seq<WeightedScorePair>, s: real, n: nat) returns (i: nat)
    requires WellPooled(q) && n < |q| && (n + 1 < |q| ==> s < q[n + 1].score)
    ensures ServesAt(q, s, i)
  {
    i := n;
    if n > 0 && s < q[n].score {
      i := SomeServes(q, s, n - 1);
    }
  }

  lemma ServesBetween(k: Knots, q: seq<WeightedScorePair>, v: seq<real>, i: nat, s: real)
    requires Tabulates(k, q, v) && DrawnFrom(k, q, v) && WellPooled(q) && ServesAt(q, s, i) && q[i].score <= s
    ensures Serves(k, s, v[i])
  {
    assert Serves(k, q[i].score, v[i]);
    var j: nat :| ServedBy(k, q[i].score, v[i], j);
    if j + 1 < |k.xs| {
      assert k.xs[j + 1] in k.xs;
      var m :| 0 <= m < |q| && q[m].score == k.xs[j + 1];
      LaterPair(q, i, m);
    }
    assert ServedBy(k, s, v[i], j);
  }

  lemma LaterPair(q: seq<WeightedScorePair>, i: nat, m: nat)
    requires WellPooled(q) && i < |q| && m < |q| && q[i].score < q[m].score
    ensures i + 1 < |q| && q[i + 1].score <= q[m].score
  {
  }

  lemma FirstValue(k: Knots, q: seq<WeightedScorePair>, v: seq<real>)
    requires Tabulates(k, q, v)
    ensures k.ys[0] == v[0]
  {
    assert Serves(k, q[0].score, v[0]);
    var j: nat :| ServedBy(k, q[0].score, v[0], j);
    assert forall m | 0 < m < |k.xs| :: k.xs[0] < k.xs[m];
  }

  lemma PadServesFrom(k: Knots, s: real, y: real)
    requires |k.xs| == |k.ys| > 0 && StrictlyIncreasing(k.xs) && Serves(k, s, y) && s <= 1.0
    ensures Serves(PadRight(PadLeft(k)), s, y)
  {
    if s <= k.xs[|k.xs| - 1] {
      PadKeepsServes(k, s, y);
    } else {
      var j: nat :| ServedBy(k, s, y, j);
      assert forall m | 0 <= m < |k.xs| - 1 :: k.xs[m] < k.xs[|k.xs| - 1];
      var l := PadLeft(k);
      assert l.ys[|l.ys| - 1] == y && l.xs[|l.xs| - 1] == k.xs[|k.xs| - 1];
      var r := PadRight(l);
      assert ServedBy(r, s, y, if s == 1.0 && |r.xs| > |l.xs| then |l.xs| else |l.xs| - 1);
    }
  }

  lemma PadServesBelow(k: Knots, s: real)
    requires |k.xs| == |k.ys| > 0 && 0.0 <= s < k.xs[0]
    ensures Serves(PadRight(PadLeft(k)), s, k.ys[0])
  {
    var r := PadRight(PadLeft(k));
    assert r.xs[0] == 0.0 && r.xs[1] == k.xs[0] && r.ys[0] == k.ys[0];
    assert ServedBy(r, s, k.ys[0], 0);
  }

  lemma PaddedServes(k: Knots, q: seq<WeightedScorePair>, v: seq<real>, i: nat, s: real)
    requires Tabulates(k, q, v) && DrawnFrom(k, q, v) && WellPooled(q) && ServesAt(q, s, i) && 0.0 <= s <= 1.0
    ensures Serves(PadRight(PadLeft(k)), s, v[i])
  {
    if q[i].score <= s {
      ServesBetween(k, q, v, i, s);
      PadServesFrom(k, s, v[i]);
    } else {
      FirstValue(k, q, v);
      PadServesBelow(k, s);
    }
  }

  lemma LookupClamps(x: real, k: Knots)
    ensures Lookup(x, k) == Lookup(Clamp01(x), k)
  {
  }

  /** The emitted table of a fit, before padding. */
  lemma FitEmission(scores: seq<real>, labels: seq<bool>) returns (k: Knots, v: seq<real>)
    requires |scores| == |labels| > 0
    ensures var q := PooledPairs(Pairs(scores, labels));
      Tabulates(k, q, v) && DrawnFrom(k, q, v) && forall i | 0 <= i < |q| :: v[i] == MaxMinMean(q, i, i)
    ensures FitKnots(scores, labels) == PadRight(PadLeft(k)) && FullRange(FitKnots(scores, labels))
  {
    var gs, q := GroupsOf(scores, labels), PooledPairs(Pairs(scores, labels));
    k, v := EmitBlocks(BlocksOf(gs)), Values(gs);
    PavInvariant(q);
    EmissionTabulates(gs);
    EmissionDraws(gs);
    FitTabulates(scores, labels);
    forall i | 0 <= i < |q| ensures v[i] == MaxMinMean(q, i, i) {
      PavIsMaxMin(q, i);
    }
  }

  /** At every real score the fit serves the max-min mean of the last pooled score at or below it, or of the first. */
  lemma FitServes(scores: seq<real>, labels: seq<bool>, x: real, i: nat)
    requires |scores| == |labels| > 0
    requires ServesAt(PooledPairs(Pairs(scores, labels)), Clamp01(x), i)
    ensures Lookup(x, FitKnots(scores, labels)) == MaxMinMean(PooledPairs(Pairs(scores, labels)), i, i)
  {
    var k, v := FitEmission(scores, labels);
    PaddedServes(k, PooledPairs(Pairs(scores, labels)), v, i, Clamp01(x));
    ServesDecides(FitKnots(scores, labels), Clamp01(x), v[i]);
    LookupClamps(x, FitKnots(scores, labels));
  }

  lemma PadAddsEnds(k: Knots)
    requires |k.xs| == |k.ys| > 0
    ensures forall x | x in PadRight(PadLeft(k)).xs :: x == 0.0 || x == 1.0 || x in k.xs
    ensures forall y | y in PadRight(PadLeft(k)).ys :: y in k.ys
  {
    assert k.ys[0] in k.ys && k.ys[|k.ys| - 1] in k.ys;
    assert PadLeft(k).ys[|PadLeft(k).ys| - 1] == k.ys[|k.ys| - 1];
  }

  /** The value is the max-min mean at some pooled score. */
  ghost predicate ServedSomewhere(q: seq<WeightedScorePair>, y: real) { exists i | 0 <= i < |q| :: y == MaxMinMean(q, i, i) }

  lemma ValueIsServed(q: seq<WeightedScorePair>, v: seq<real>, y: real)
    requires |v| == |q| && (forall i | 0 <= i < |q| :: v[i] == MaxMinMean(q, i, i)) && HasValue(v, y)
    ensures ServedSomewhere(q, y)
  {
    var i :| 0 <= i < |v| && v[i] == y;
    assert y == MaxMinMean(q, i, i);
  }

  /** Nothing in the table but 0, 1, pooled scores and their values. */
  lemma KnotsAreServed(scores: seq<real>, labels: seq<bool>)
    requires |scores| == |labels| > 0
    ensures forall x | x in FitKnots(scores, labels).xs :: x == 0.0 || x == 1.0 || HasScore(PooledPairs(Pairs(scores, labels)), x)
    ensures forall y | y in FitKnots(scores, labels).ys :: ServedSomewhere(PooledPairs(Pairs(scores, labels)), y)
  {
    var k, v := FitEmission(scores, labels);
    PadAddsEnds(k);
    forall y | y in k.ys ensures ServedSomewhere(PooledPairs(Pairs(scores, labels)), y) {
      ValueIsServed(PooledPairs(Pairs(scores, labels)), v, y);
    }
  }
}
