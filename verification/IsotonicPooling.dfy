/** Labelled samples, sums over them, and the pooling of identical scores. */
module IsotonicPooling {
  import opened Sorting

  /** A label counted as a number: 1 for success, 0 for failure. */
  type Label = n: nat | n <= 1

  datatype ScoreLabelPair = ScoreLabelPair(score: real, outcome: Label)
  datatype WeightedScorePair = WeightedScorePair(score: real, sum: nat, weight: nat)

  function Clamp01(value: real): (r: real)
    ensures 0.0 <= r <= 1.0
    ensures 0.0 <= value <= 1.0 ==> r == value
    ensures value < 0.0 ==> r == 0.0
    ensures value > 1.0 ==> r == 1.0
  {
    if value <= 0.0 then 0.0 else if value >= 1.0 then 1.0 else value
  }

  function Min(a: real, b: real): real { if a <= b then a else b }

  function Max(a: real, b: real): real { if a <= b then b else a }

  function LabelValue(success: bool): Label { if success then 1 else 0 }

  // ---------------------------------------------------------------------------
  // Sums over labelled samples
  // ---------------------------------------------------------------------------

  function Total(ps: seq<ScoreLabelPair>, f: (real, Label) -> real): real {
    if |ps| == 0 then 0.0
    else Total(ps[..|ps| - 1], f) + f(ps[|ps| - 1].score, ps[|ps| - 1].outcome)
  }

  lemma {:induction false} TotalConcat(a: seq<ScoreLabelPair>, b: seq<ScoreLabelPair>, f: (real, Label) -> real)
    ensures Total(a + b, f) == Total(a, f) + Total(b, f)
  {
    if |b| == 0 {
      assert a + b == a;
    } else {
      assert (a + b)[..|a + b| - 1] == a + b[..|b| - 1];
      TotalConcat(a, b[..|b| - 1], f);
    }
  }

  lemma TotalSnoc(ps: seq<ScoreLabelPair>, p: ScoreLabelPair, f: (real, Label) -> real)
    ensures Total(ps + [p], f) == Total(ps, f) + f(p.score, p.outcome)
  {
    assert (ps + [p])[..|ps|] == ps;
  }

  lemma TotalMiddle(l: seq<ScoreLabelPair>, p: ScoreLabelPair, r: seq<ScoreLabelPair>, f: (real, Label) -> real)
    ensures Total(l + [p] + r, f) == Total(l + r, f) + f(p.score, p.outcome)
  {
    TotalConcat(l + [p], r, f);
    TotalSnoc(l, p, f);
    TotalConcat(l, r, f);
  }

  lemma {:induction false} TotalPermutation(a: seq<ScoreLabelPair>, b: seq<ScoreLabelPair>, f: (real, Label) -> real)
    requires multiset(a) == multiset(b)
    ensures Total(a, f) == Total(b, f)
    decreases |a|
  {
    if |a| == 0 {
      assert |multiset(b)| == 0;
    } else {
      var init, x := a[..|a| - 1], a[|a| - 1];
      assert a == init + [x];
      assert x in multiset(b);
      var i :| 0 <= i < |b| && b[i] == x;
      RemoveSame(init, x, b, i);
      SplitOut(b, i);
      TotalMiddle(b[..i], x, b[i + 1..], f);
      TotalPermutation(init, b[..i] + b[i + 1..], f);
    }
  }

  // ---------------------------------------------------------------------------
  // Pooling identical scores
  // ---------------------------------------------------------------------------

  function Pool(ps: seq<ScoreLabelPair>): (q: seq<WeightedScorePair>)
    ensures |ps| > 0 ==> |q| > 0 && q[|q| - 1].score == ps[|ps| - 1].score
    ensures |q| <= |ps|
  {
    if |ps| == 0 then []
    else PoolStep(Pool(ps[..|ps| - 1]), ps[|ps| - 1])
  }

  ghost predicate WellPooled(q: seq<WeightedScorePair>) {
    && (forall i | 0 <= i < |q| :: q[i].sum <= q[i].weight && 1 <= q[i].weight && 0.0 <= q[i].score <= 1.0)
    && (forall i, j | 0 <= i < j < |q| :: q[i].score < q[j].score)
  }

  predicate PairLeq(a: ScoreLabelPair, b: ScoreLabelPair) {
    a.score < b.score || (a.score == b.score && a.outcome <= b.outcome)
  }

  lemma PairLeqIsTotal()
    ensures TotalPreorder(PairLeq)
  {
  }

  function PoolStep(q: seq<WeightedScorePair>, p: ScoreLabelPair): (r: seq<WeightedScorePair>)
    ensures |r| > 0 && r[|r| - 1].score == p.score && |r| <= |q| + 1
  {
    if |q| > 0 && q[|q| - 1].score == p.score then
      q[..|q| - 1] + [WeightedScorePair(p.score, q[|q| - 1].sum + p.outcome, q[|q| - 1].weight + 1)]
    else q + [WeightedScorePair(p.score, p.outcome, 1)]
  }

  lemma PoolStepWellPooled(q: seq<WeightedScorePair>, p: ScoreLabelPair)
    requires WellPooled(q) && 0.0 <= p.score <= 1.0
    requires |q| > 0 ==> q[|q| - 1].score <= p.score
    ensures WellPooled(PoolStep(q, p))
  {
    var r := PoolStep(q, p);
    forall i, j | 0 <= i < j < |r| ensures r[i].score < r[j].score {
      if j < |q| {
        assert q[i].score < q[j].score;
      } else if i < |q| - 1 {
        assert q[i].score < q[|q| - 1].score;
      }
    }
  }

  lemma {:induction false} PoolWellPooled(ps: seq<ScoreLabelPair>)
    requires SortedBy(ps, PairLeq)
    requires forall p | p in ps :: 0.0 <= p.score <= 1.0
    ensures WellPooled(Pool(ps))
  {
    if |ps| > 0 {
      var init, p := ps[..|ps| - 1], ps[|ps| - 1];
      PoolWellPooled(init);
      if |init| > 0 {
        assert PairLeq(ps[|ps| - 2], p);
        assert Pool(init)[|Pool(init)| - 1].score <= p.score;
      }
      assert 0.0 <= p.score <= 1.0;
      PoolStepWellPooled(Pool(init), p);
    }
  }

  /** The same sum taken over pooled pairs. */
  function PooledTotal(q: seq<WeightedScorePair>, f: (real, Label) -> real): real {
    if |q| == 0 then 0.0
    else PooledTotal(q[..|q| - 1], f) + PooledTerm(q[|q| - 1], f)
  }

  function PooledTerm(p: WeightedScorePair, f: (real, Label) -> real): real {
    p.sum as real * f(p.score, 1) + (p.weight as real - p.sum as real) * f(p.score, 0)
  }

  /** Pooling loses nothing: every label sum over the samples is the sum over the pooled pairs. */
  lemma {:induction false} PoolPreservesTotals(ps: seq<ScoreLabelPair>, f: (real, Label) -> real)
    ensures PooledTotal(Pool(ps), f) == Total(ps, f)
  {
    if |ps| > 0 {
      var init, p := ps[..|ps| - 1], ps[|ps| - 1];
      PoolPreservesTotals(init, f);
      StepTotal(Pool(init), p, f);
    }
  }

  lemma StepTotal(q: seq<WeightedScorePair>, p: ScoreLabelPair, f: (real, Label) -> real)
    ensures PooledTotal(PoolStep(q, p), f) == PooledTotal(q, f) + f(p.score, p.outcome)
  {
    var r := PoolStep(q, p);
    if |q| > 0 && q[|q| - 1].score == p.score {
      assert r[..|r| - 1] == q[..|q| - 1];
      TermStep(q[|q| - 1], p.outcome, f);
    } else {
      assert r[..|r| - 1] == q;
      TermStep(WeightedScorePair(p.score, 0, 0), p.outcome, f);
      assert 0 + p.outcome == p.outcome && 0 + 1 == 1;
    }
  }

  lemma TermStep(p: WeightedScorePair, outcome: Label, f: (real, Label) -> real)
    ensures PooledTerm(WeightedScorePair(p.score, p.sum + outcome, p.weight + 1), f)
         == PooledTerm(p, f) + f(p.score, outcome)
  {
    var s, w := p.sum as real, p.weight as real;
    var f1, f0 := f(p.score, 1), f(p.score, 0);
    assert (p.weight + 1) as real == w + 1.0;
    if outcome == 1 {
      assert (p.sum + outcome) as real == s + 1.0;
      assert (s + 1.0) * f1 == s * f1 + f1;
      assert w + 1.0 - (s + 1.0) == w - s;
    } else {
      assert (p.sum + outcome) as real == s;
      assert (w + 1.0 - s) * f0 == (w - s) * f0 + f0;
    }
  }

  /** The runs closed so far and the open one are the pool of the first `n` samples. */
  ghost predicate Collapsed(pairs: seq<ScoreLabelPair>, n: nat, closed: seq<WeightedScorePair>, open: WeightedScorePair) {
    n <= |pairs| && closed + [open] == Pool(pairs[..n])
  }

  /** Collapses runs of one score in a sorted list into weighted pairs. */
  method PoolIdenticalScores(pairs: seq<ScoreLabelPair>) returns (pooled: seq<WeightedScorePair>)
    ensures pooled == Pool(pairs)
  {
    if |pairs| == 0 {
      return [];
    }
    pooled := [];
    var score, sum, weight := pairs[0].score, pairs[0].outcome as int, 1;
    FirstRun(pairs);
    var index := 1;
    while index < |pairs|
      invariant 1 <= index <= |pairs| && sum >= 0 && weight >= 1
      invariant Collapsed(pairs, index, pooled, WeightedScorePair(score, sum, weight))
    {
      var pair := pairs[index];
      NextSample(pairs, index, pooled, WeightedScorePair(score, sum, weight));
      index := index + 1;
      if pair.score == score {
        sum := sum + pair.outcome;
        weight := weight + 1;
        continue;
      }
      pooled := pooled + [WeightedScorePair(score, sum, weight)];
      score, sum, weight := pair.score, pair.outcome, 1;
    }
    AllCollapsed(pairs, pooled, WeightedScorePair(score, sum, weight));
    pooled := pooled + [WeightedScorePair(score, sum, weight)];
  }

  lemma AllCollapsed(pairs: seq<ScoreLabelPair>, closed: seq<WeightedScorePair>, open: WeightedScorePair)
    requires Collapsed(pairs, |pairs|, closed, open)
    ensures closed + [open] == Pool(pairs)
  {
    assert pairs[..|pairs|] == pairs;
  }

  lemma FirstRun(pairs: seq<ScoreLabelPair>)
    requires |pairs| > 0
    ensures Collapsed(pairs, 1, [], WeightedScorePair(pairs[0].score, pairs[0].outcome, 1))
  {
    assert pairs[..1][..0] == [];
  }

  lemma NextSample(pairs: seq<ScoreLabelPair>, index: nat, closed: seq<WeightedScorePair>, open: WeightedScorePair)
    requires index < |pairs| && Collapsed(pairs, index, closed, open)
    ensures var p := pairs[index];
      if open.score == p.score
      then Collapsed(pairs, index + 1, closed, WeightedScorePair(p.score, open.sum + p.outcome, open.weight + 1))
      else Collapsed(pairs, index + 1, closed + [open], WeightedScorePair(p.score, p.outcome, 1))
  {
    assert pairs[..index + 1][..index] == pairs[..index];
    assert (closed + [open])[..|closed|] == closed;
  }
}
