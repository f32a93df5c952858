/** What a lookup returns: on every accepted table, and on the tables the fit emits. */
module IsotonicLookup {
  import opened IsotonicPooling
  import opened IsotonicPav
  import opened IsotonicOptimality
  import opened IsotonicKnots
  import opened IsotonicFit

  // ---------------------------------------------------------------------------
  // Every accepted table, repeated x-knots included
  // ---------------------------------------------------------------------------

  /** Linear scan downwards from knot `n` for the last knot at or below the score. */
  function LastKnotAtOrBelow(xs: seq<real>, score: real, n: nat): nat
    requires n < |xs|
  {
    if n == 0 || xs[n] <= score then n else LastKnotAtOrBelow(xs, score, n - 1)
  }

  /** Knot `r` is at or below the score and the next one, if any, above it. */
  ghost predicate Brackets(xs: seq<real>, score: real, r: nat) {
    r < |xs| && xs[r] <= score && (r + 1 < |xs| ==> score < xs[r + 1])
  }

  lemma {:induction false} SearchFinds(xs: seq<real>, score: real, low: nat, high: nat)
    requires low <= high < |xs| && xs[low] <= score
    requires high + 1 < |xs| ==> score < xs[high + 1]
    ensures Brackets(xs, score, BinarySearch(xs, score, low, high))
    decreases high - low
  {
    if low < high {
      var mid := Middle(low, high);
      if xs[mid] <= score {
        SearchFinds(xs, score, mid, high);
      } else {
        SearchFinds(xs, score, low, mid - 1);
      }
    }
  }

  lemma {:induction false} ScanFinds(xs: seq<real>, score: real, n: nat, r: nat)
    requires NonDecreasing(xs) && r <= n < |xs| && Brackets(xs, score, r)
    ensures LastKnotAtOrBelow(xs, score, n) == r
  {
    if r < n {
      assert xs[r + 1] <= xs[n] || r + 1 == n;
      ScanFinds(xs, score, n - 1, r);
    }
  }

  /** The score's knot on an accepted table: first at the left end, last at the right end. */
  ghost function KnotIndex(xs: seq<real>, score: real): nat
    requires |xs| > 0
  {
    if score <= xs[0] then 0
    else if score >= xs[|xs| - 1] then |xs| - 1
    else LastKnotAtOrBelow(xs, score, |xs| - 1)
  }

  /** The binary search agrees with the linear scan, on every score and accepted table. */
  lemma LookupIsLinearScan(rawScore: real, k: Knots)
    requires ValidKnots(k)
    ensures KnotIndex(k.xs, Clamp01(rawScore)) < |k.xs|
    ensures Lookup(rawScore, k) == k.ys[KnotIndex(k.xs, Clamp01(rawScore))]
    ensures 0.0 <= Lookup(rawScore, k) <= 1.0
  {
    var score, last := Clamp01(rawScore), |k.xs| - 1;
    var i := if score <= k.xs[0] then 0 else if score >= k.xs[last] then last
             else BinarySearch(k.xs, score, 0, last);
    if k.xs[0] < score < k.xs[last] {
      SearchFinds(k.xs, score, 0, last);
      ScanFinds(k.xs, score, last, i);
    }
    assert k.ys[i] in k.ys;
  }

  lemma {:induction false} ScanMonotone(xs: seq<real>, a: real, b: real, n: nat)
    requires n < |xs| && a <= b
    ensures LastKnotAtOrBelow(xs, a, n) <= LastKnotAtOrBelow(xs, b, n) <= n
  {
    if n > 0 && !(xs[n] <= a) {
      ScanMonotone(xs, a, b, n - 1);
    }
  }

  /** A higher raw score never looks up a lower value. */
  lemma LookupMonotone(a: real, b: real, k: Knots)
    requires ValidKnots(k) && a <= b
    ensures Lookup(a, k) <= Lookup(b, k)
  {
    LookupIsLinearScan(a, k);
    LookupIsLinearScan(b, k);
    var x, y := Clamp01(a), Clamp01(b);
    ScanMonotone(k.xs, x, y, |k.xs| - 1);
    var i, j := KnotIndex(k.xs, x), KnotIndex(k.xs, y);
    assert i <= j;
    assert i < j ==> k.ys[i] <= k.ys[j];
  }

  // ---------------------------------------------------------------------------
  // Normalised fit tables
  // ---------------------------------------------------------------------------

  lemma {:induction false} RunningMaxFixed(ys: seq<real>)
    requires NonDecreasing(ys)
    ensures RunningMax(ys) == ys
  {
    if |ys| > 1 {
      var init := ys[..|ys| - 1];
      RunningMaxFixed(init);
      assert ys == init + [ys[|ys| - 1]];
      assert ys[|ys| - 2] <= ys[|ys| - 1];
    }
  }

  ghost predicate FullRange(k: Knots) {
    && |k.xs| >= 2 && StrictlyIncreasing(k.xs)
    && k.xs[0] == 0.0 && k.xs[|k.xs| - 1] == 1.0
    && ValidKnots(k)
  }

  /** A strictly increasing table with values in [0, 1], before padding. */
  ghost predicate Emitted(k: Knots) {
    |k.xs| == |k.ys| > 0 && StrictlyIncreasing(k.xs) && NonDecreasing(k.ys) && InUnit(k.xs) && InUnit(k.ys)
  }

  lemma PadLeftEmitted(k: Knots)
    requires Emitted(k)
    ensures Emitted(PadLeft(k)) && PadLeft(k).xs[0] == 0.0
    ensures PadLeft(k).xs[|PadLeft(k).xs| - 1] == k.xs[|k.xs| - 1]
  {
    var r := PadLeft(k);
    assert k.xs[0] in k.xs && k.ys[0] in k.ys;
    if k.xs[0] > 0.0 {
      forall i, j | 0 <= i < j < |r.xs| ensures r.xs[i] < r.xs[j] && r.ys[i] <= r.ys[j] {
        assert r.xs[j] == k.xs[j - 1] && r.ys[j] == k.ys[j - 1];
        if i > 0 {
          assert k.xs[i - 1] < k.xs[j - 1] && k.ys[i - 1] <= k.ys[j - 1];
        } else if j > 1 {
          assert k.xs[0] < k.xs[j - 1] && k.ys[0] <= k.ys[j - 1];
        }
      }
    }
  }

  lemma PadRightEmitted(k: Knots)
    requires Emitted(k)
    ensures Emitted(PadRight(k)) && PadRight(k).xs[|PadRight(k).xs| - 1] == 1.0
    ensures PadRight(k).xs[0] == k.xs[0]
    ensures k.xs[0] == 0.0 ==> |PadRight(k).xs| >= 2
  {
    var r, n := PadRight(k), |k.xs|;
    assert k.xs[n - 1] in k.xs && k.ys[n - 1] in k.ys;
    if k.xs[n - 1] < 1.0 {
      forall i, j | 0 <= i < j < |r.xs| ensures r.xs[i] < r.xs[j] && r.ys[i] <= r.ys[j] {
        if j < n {
          assert k.xs[i] < k.xs[j] && k.ys[i] <= k.ys[j];
        } else if i < n - 1 {
          assert k.xs[i] < k.xs[n - 1] && k.ys[i] <= k.ys[n - 1];
        }
      }
    }
  }

  lemma PadKeepsServes(k: Knots, s: real, y: real)
    requires |k.xs| == |k.ys| > 0 && Serves(k, s, y) && s <= k.xs[|k.xs| - 1]
    ensures Serves(PadRight(PadLeft(k)), s, y)
  {
    var j :| ServedBy(k, s, y, j);
    var l := PadLeft(k);
    var jl := if k.xs[0] > 0.0 then j + 1 else j;
    assert ServedBy(l, s, y, jl);
    assert ServedBy(PadRight(l), s, y, jl);
  }

  lemma KnotDecides(k: Knots, s: real, y: real, j: nat)
    requires FullRange(k) && ServedBy(k, s, y, j) && 0.0 <= s <= 1.0
    ensures Lookup(s, k) == y
  {
    var last := |k.xs| - 1;
    assert k.ys[j] in k.ys;
    assert k.xs[0] < k.xs[1];
    ScanFinds(k.xs, s, last, j);
    if s <= k.xs[0] {
      ScanFinds(k.xs, s, last, 0);
    } else if s >= k.xs[last] {
      ScanFinds(k.xs, s, last, last);
    } else {
      SearchFinds(k.xs, s, 0, last);
      ScanFinds(k.xs, s, last, BinarySearch(k.xs, s, 0, last));
    }
  }

  /** On a full-range table the serving knot decides the lookup. */
  lemma ServesDecides(k: Knots, s: real, y: real)
    requires FullRange(k) && Serves(k, s, y) && 0.0 <= s <= 1.0
    ensures Lookup(s, k) == y
  {
    var j: nat :| ServedBy(k, s, y, j);
    KnotDecides(k, s, y, j);
  }

  lemma TabulatedInUnit(k: Knots, q: seq<WeightedScorePair>, v: seq<real>)
    requires Tabulates(k, q, v) && WellPooled(q)
    ensures InUnit(k.xs)
  {
    forall x | x in k.xs ensures 0.0 <= x <= 1.0 {
      var i :| 0 <= i < |k.xs| && k.xs[i] == x;
      assert i > 0 ==> k.xs[0] < k.xs[i];
      assert i < |k.xs| - 1 ==> k.xs[i] < k.xs[|k.xs| - 1];
    }
  }

  lemma PaddedLookup(k: Knots, q: seq<WeightedScorePair>, v: seq<real>, i: nat)
    requires Tabulates(k, q, v) && WellPooled(q) && i < |q|
    requires FullRange(PadRight(PadLeft(k)))
    ensures Lookup(q[i].score, PadRight(PadLeft(k))) == v[i]
  {
    assert Serves(k, q[i].score, v[i]);
    assert i < |q| - 1 ==> q[i].score < q[|q| - 1].score;
    PadKeepsServes(k, q[i].score, v[i]);
    ServesDecides(PadRight(PadLeft(k)), q[i].score, v[i]);
  }

  lemma NormalizePads(k: Knots, q: seq<WeightedScorePair>, v: seq<real>)
    requires Tabulates(k, q, v) && WellPooled(q)
    ensures FullRange(PadRight(PadLeft(k))) && NormalizeKnots(k) == PadRight(PadLeft(k))
  {
    TabulatedInUnit(k, q, v);
    PadLeftEmitted(k);
    PadRightEmitted(PadLeft(k));
    RunningMaxFixed(PadRight(PadLeft(k)).ys);
  }

  /** Normalising an emitted table repairs nothing and keeps every served value. */
  lemma NormalizeTabulated(k: Knots, q: seq<WeightedScorePair>, v: seq<real>)
    requires Tabulates(k, q, v) && WellPooled(q)
    ensures FullRange(NormalizeKnots(k))
    ensures NormalizeKnots(k) == PadRight(PadLeft(k))
    ensures forall i | 0 <= i < |q| :: Lookup(q[i].score, NormalizeKnots(k)) == v[i]
  {
    NormalizePads(k, q, v);
    forall i | 0 <= i < |q| ensures Lookup(q[i].score, NormalizeKnots(k)) == v[i] {
      PaddedLookup(k, q, v, i);
    }
  }

  // ---------------------------------------------------------------------------
  // The fitted table
  // ---------------------------------------------------------------------------

  /**
   * Every fit yields at least two strictly increasing x-knots from 0 to 1 with ascending values
   * in [0, 1], so it passes the validator.
   */
  lemma FitIsWellFormed(scores: seq<real>, labels: seq<bool>)
    ensures FullRange(FitKnots(scores, labels))
  {
    if |scores| > 0 && |scores| == |labels| {
      FitTabulates(scores, labels);
    }
  }

  /**
   * On a non-empty fit, emission never takes the averaging branch, the repair loop changes
   * nothing, and a lookup at a pooled score returns its block mean.
   */
  lemma FitTabulates(scores: seq<real>, labels: seq<bool>)
    requires |scores| == |labels| > 0
    ensures var gs := GroupsOf(scores, labels);
      var q, v, k := PooledPairs(Pairs(scores, labels)), Values(gs), EmitBlocks(BlocksOf(gs));
      && NoCollisions(BlocksOf(gs))
      && |k.xs| > 0 && FitKnots(scores, labels) == PadRight(PadLeft(k))
      && FullRange(FitKnots(scores, labels))
      && Certificate(q, v) && AllBalanced(q, v)
      && forall i | 0 <= i < |q| :: Lookup(q[i].score, FitKnots(scores, labels)) == v[i]
  {
    var q, gs := PooledPairs(Pairs(scores, labels)), GroupsOf(scores, labels);
    PavInvariant(q);
    ValuesCertified(gs);
    EmissionTabulates(gs);
    NormalizeTabulated(EmitBlocks(BlocksOf(gs)), q, Values(gs));
  }
}
