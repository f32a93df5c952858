/** Fitting the calibrator on labelled samples: holdout split, fit and reported errors. */
module IsotonicCalibrator {
  import opened Wrappers
  import opened Sorting
  import opened IsotonicPooling
  import opened IsotonicKnots
  import opened IsotonicFit
  import opened IsotonicEce
  import opened IsotonicTheorems

  const MIN_TRAINING_SAMPLES := 30
  const DEFAULT_HOLDOUT_FRACTION := 0.2
  const DEFAULT_ECE_BINS := 10
  const SPLIT_SEED := 0x5eed132

  datatype Sample = Sample(requestId: string, features: seq<real>, success: bool)

  datatype Split = Split(fit: seq<Sample>, holdout: seq<Sample>)

  /** The hash that orders samples for the split: request id, seed and position to a rank. */
  type RankFunction = (string, int, nat) -> nat

  /** The classifier's score for a feature vector, its weights already fixed. */
  type ScoreFunction = seq<real> -> real

  // ---------------------------------------------------------------------------
  // Holdout split
  // ---------------------------------------------------------------------------

  function Round(x: real): int { (x + 0.5).Floor }

  function HoldoutCount(n: nat, fraction: real): int {
    if Clamp01(fraction) == 0.0 then 0
    else
      var wanted := Round(n as real * Clamp01(fraction));
      var capped := if wanted <= n - 1 then wanted else n - 1;
      if capped >= 1 then capped else 1
  }

  datatype Ranked = Ranked(sample: Sample, rank: nat)

  predicate RankLeq(a: Ranked, b: Ranked) { a.rank <= b.rank }

  function RankAll(samples: seq<Sample>, seed: int, rank: RankFunction): (rs: seq<Ranked>)
    ensures |rs| == |samples|
    ensures forall i | 0 <= i < |samples| :: rs[i] == Ranked(samples[i], rank(samples[i].requestId, seed, i))
  {
    seq(|samples|, i requires 0 <= i < |samples| => Ranked(samples[i], rank(samples[i].requestId, seed, i)))
  }

  function SamplesOf(rs: seq<Ranked>): (s: seq<Sample>)
    ensures |s| == |rs|
    ensures forall i | 0 <= i < |rs| :: s[i] == rs[i].sample
  {
    seq(|rs|, i requires 0 <= i < |rs| => rs[i].sample)
  }

  function SplitLabeledSamples(samples: seq<Sample>, fraction: real, seed: int, rank: RankFunction): Split {
    if |samples| == 0 then Split([], [])
    else
      var n := HoldoutCount(|samples|, fraction);
      var ordered := SamplesOf(Sort(RankAll(samples, seed, rank), RankLeq));
      assert 0 <= n <= |ordered|;
      Split(ordered[n..], ordered[..n])
  }

  lemma SamplesOfRemove(b: seq<Ranked>, i: nat)
    requires i < |b|
    ensures multiset(SamplesOf(b)) == multiset(SamplesOf(b[..i] + b[i + 1..])) + multiset{b[i].sample}
  {
    var s := SamplesOf(b);
    assert SamplesOf(b[..i] + b[i + 1..]) == s[..i] + s[i + 1..];
    MultisetRemove(s, i);
  }

  lemma {:induction false} SamplesOfMultiset(a: seq<Ranked>, b: seq<Ranked>)
    requires multiset(a) == multiset(b)
    ensures multiset(SamplesOf(a)) == multiset(SamplesOf(b))
    decreases |a|
  {
    if |a| == 0 {
      assert |multiset(b)| == 0;
    } else {
      var n := |a| - 1;
      assert a[n] in multiset(b);
      var i :| 0 <= i < |b| && b[i] == a[n];
      MultisetRemove(a, n);
      MultisetRemove(b, i);
      SamplesOfRemove(a, n);
      SamplesOfRemove(b, i);
      assert multiset(a[..n] + a[n + 1..]) == multiset(a) - multiset{a[n]};
      assert multiset(b[..i] + b[i + 1..]) == multiset(b) - multiset{b[i]};
      SamplesOfMultiset(a[..n] + a[n + 1..], b[..i] + b[i + 1..]);
    }
  }

  /**
   * The split is a permutation of the samples. It holds some out exactly when there are samples and
   * the fraction is positive, and leaves some to fit exactly from two samples on, or for a single
   * one that is not held out.
   */
  lemma SplitIsPermutation(samples: seq<Sample>, fraction: real, seed: int, rank: RankFunction)
    ensures var s := SplitLabeledSamples(samples, fraction, seed, rank);
      && multiset(s.fit + s.holdout) == multiset(samples)
      && (|s.holdout| > 0 <==> |samples| > 0 && fraction > 0.0)
      && (|s.fit| > 0 <==> |samples| >= 2 || (|samples| == 1 && fraction <= 0.0))
  {
    if |samples| > 0 {
      var ranked := RankAll(samples, seed, rank);
      SamplesOfMultiset(Sort(ranked, RankLeq), ranked);
      assert SamplesOf(ranked) == samples;
      CutKeepsMultiset(SamplesOf(Sort(ranked, RankLeq)), HoldoutCount(|samples|, fraction));
    }
  }

  lemma CutKeepsMultiset<T>(s: seq<T>, n: nat)
    requires n <= |s|
    ensures multiset(s[n..] + s[..n]) == multiset(s)
  {
    assert s == s[..n] + s[n..];
  }

  /** Held-out samples carry the smallest ranks. */
  lemma HoldoutRanksFirst(samples: seq<Sample>, fraction: real, seed: int, rank: RankFunction)
    requires |samples| > 0
    ensures var ordered, n := Sort(RankAll(samples, seed, rank), RankLeq), HoldoutCount(|samples|, fraction);
      && 0 <= n <= |ordered|
      && SplitLabeledSamples(samples, fraction, seed, rank) == Split(SamplesOf(ordered[n..]), SamplesOf(ordered[..n]))
      && forall a, b | a in ordered[..n] && b in ordered[n..] :: a.rank <= b.rank
  {
    var ordered, n := Sort(RankAll(samples, seed, rank), RankLeq), HoldoutCount(|samples|, fraction);
    SortSorts(RankAll(samples, seed, rank), RankLeq);
    assert SamplesOf(ordered)[n..] == SamplesOf(ordered[n..]);
    assert SamplesOf(ordered)[..n] == SamplesOf(ordered[..n]);
    forall a, b | a in ordered[..n] && b in ordered[n..] ensures a.rank <= b.rank {
      assert RankLeq(a, b);
    }
  }

  // ---------------------------------------------------------------------------
  // Fit from samples
  // ---------------------------------------------------------------------------

  datatype Artifact = Artifact(
    version: int, minTrainingSamples: int, knots: Knots, trainedSampleCount: int,
    holdoutEceRaw: Option<real>, holdoutEceCalibrated: Option<real>)

  datatype FitResult = FitResult(artifact: Artifact, fitSampleCount: nat, holdoutSampleCount: nat)

  datatype FitOptions = FitOptions(
    holdoutFraction: Option<real>, minTrainingSamples: Option<int>, eceBins: Option<int>, preSplit: Option<Split>)

  const DEFAULT_OPTIONS := FitOptions(None, None, None, None)

  const DEFAULT_ARTIFACT := Artifact(ARTIFACT_VERSION, MIN_TRAINING_SAMPLES, IDENTITY_KNOTS, 0, None, None)

  function Scores(samples: seq<Sample>, score: ScoreFunction): (s: seq<real>)
    ensures |s| == |samples|
    ensures forall i | 0 <= i < |samples| :: s[i] == score(samples[i].features)
  {
    seq(|samples|, i requires 0 <= i < |samples| => score(samples[i].features))
  }

  function Labels(samples: seq<Sample>): (l: seq<bool>)
    ensures |l| == |samples|
    ensures forall i | 0 <= i < |samples| :: l[i] == samples[i].success
  {
    seq(|samples|, i requires 0 <= i < |samples| => samples[i].success)
  }

  function ChosenSplit(samples: seq<Sample>, o: FitOptions, rank: RankFunction): Split {
    match o.preSplit
    case Some(split) => split
    case None => SplitLabeledSamples(samples, o.holdoutFraction.GetOr(DEFAULT_HOLDOUT_FRACTION), SPLIT_SEED, rank)
  }

  function PoolSize(samples: seq<Sample>, o: FitOptions): nat {
    match o.preSplit
    case Some(split) => |split.fit| + |split.holdout|
    case None => |samples|
  }

  /** True when the pool reaches its floor and leaves something to fit. */
  predicate Fits(samples: seq<Sample>, o: FitOptions, rank: RankFunction) {
    && PoolSize(samples, o) >= o.minTrainingSamples.GetOr(MIN_TRAINING_SAMPLES)
    && |ChosenSplit(samples, o, rank).fit| > 0
  }

  ghost function HoldoutEce(split: Split, scores: seq<real>, bins: int): Option<real>
    requires |split.holdout| > 0 ==> bins >= 1
  {
    if |split.holdout| > 0 then Some(Ece(scores, Labels(split.holdout), bins)) else None
  }

  /** The table fitted on one side of a split. */
  function FittedKnots(split: Split, score: ScoreFunction): Knots {
    FitKnots(Scores(split.fit, score), Labels(split.fit))
  }

  /** There is a bin wherever an error is going to be measured: the metric indexes into its bin list. */
  predicate BinsSuffice(samples: seq<Sample>, o: FitOptions, rank: RankFunction) {
    Fits(samples, o, rank) && |ChosenSplit(samples, o, rank).holdout| > 0 ==> o.eceBins.GetOr(DEFAULT_ECE_BINS) >= 1
  }

  ghost function FitFromSamples(samples: seq<Sample>, score: ScoreFunction, o: FitOptions, rank: RankFunction): FitResult
    requires BinsSuffice(samples, o, rank)
  {
    var pool, floor := PoolSize(samples, o), o.minTrainingSamples.GetOr(MIN_TRAINING_SAMPLES);
    var bins, split := o.eceBins.GetOr(DEFAULT_ECE_BINS), ChosenSplit(samples, o, rank);
    if pool < floor then FitResult(DEFAULT_ARTIFACT.(trainedSampleCount := pool), 0, 0)
    else if |split.fit| == 0 then FitResult(DEFAULT_ARTIFACT.(trainedSampleCount := pool), 0, |split.holdout|)
    else
      var k, raw := FittedKnots(split, score), Scores(split.holdout, score);
      FitResult(
        Artifact(ARTIFACT_VERSION, floor, k, pool,
                 HoldoutEce(split, raw, bins), HoldoutEce(split, Calibrated(raw, k), bins)),
        |split.fit|, |split.holdout|)
  }

  /** Scores and labels of a sample list, collected side by side. */
  method ScoreLabeledSamples(samples: seq<Sample>, score: ScoreFunction) returns (scores: seq<real>, labels: seq<bool>)
    ensures scores == Scores(samples, score) && labels == Labels(samples)
  {
    scores, labels := [], [];
    var i := 0;
    while i < |samples|
      invariant 0 <= i <= |samples|
      invariant scores == Scores(samples, score)[..i] && labels == Labels(samples)[..i]
    {
      scores := scores + [score(samples[i].features)];
      labels := labels + [samples[i].success];
      i := i + 1;
    }
  }

  method FitIsotonicCalibratorFromSamples(samples: seq<Sample>, score: ScoreFunction, o: FitOptions, rank: RankFunction)
    returns (r: FitResult)
    requires BinsSuffice(samples, o, rank)
    ensures r == FitFromSamples(samples, score, o, rank)
  {
    var minTrainingSamples := o.minTrainingSamples.GetOr(MIN_TRAINING_SAMPLES);
    var eceBins := o.eceBins.GetOr(DEFAULT_ECE_BINS);
    var poolSize := PoolSize(samples, o);
    if poolSize < minTrainingSamples {
      return FitResult(DEFAULT_ARTIFACT.(trainedSampleCount := poolSize), 0, 0);
    }
    var split := ChosenSplit(samples, o, rank);
    if |split.fit| == 0 {
      return FitResult(DEFAULT_ARTIFACT.(trainedSampleCount := poolSize), 0, |split.holdout|);
    }
    var fitScores, fitLabels := ScoreLabeledSamples(split.fit, score);
    var holdoutScores, holdoutLabels := ScoreLabeledSamples(split.holdout, score);
    var k := FitIsotonicPAV(fitScores, fitLabels);
    var calibratedScores := Calibrated(holdoutScores, k);
    var raw, calibrated := None, None;
    if |split.holdout| > 0 {
      var rawEce := ComputeExpectedCalibrationError(holdoutScores, holdoutLabels, eceBins);
      var calibratedEce := ComputeExpectedCalibrationError(calibratedScores, holdoutLabels, eceBins);
      raw, calibrated := Some(rawEce), Some(calibratedEce);
    }
    return FitResult(Artifact(ARTIFACT_VERSION, minTrainingSamples, k, poolSize, raw, calibrated),
                     |split.fit|, |split.holdout|);
  }
}
