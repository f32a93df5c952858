/** The ship verdict with its numbers: what an artifact, and a trained pool, need to pass. */
module ShipGates {
  import opened MappedLists
  import opened IsotonicKnots
  import opened IsotonicFit
  import opened IsotonicLookup
  import opened IsotonicBins
  import opened IsotonicTheorems
  import opened IsotonicCalibrator
  import opened TrainingPool

  /** Enough samples, y-knots 0.05 apart, and a measured error that calibrating did not raise and left at most 0.1. */
  ghost predicate Ships(a: Artifact) {
    && a.trainedSampleCount >= a.minTrainingSamples
    && (exists x, y | x in a.knots.ys && y in a.knots.ys :: y - x >= 0.05)
    && a.holdoutEceRaw.Some? && a.holdoutEceCalibrated.Some?
    && a.holdoutEceCalibrated.value <= a.holdoutEceRaw.value && a.holdoutEceCalibrated.value <= 0.1
  }

  lemma GatesAre(a: Artifact)
    ensures HardGatesPassed(a) <==> Ships(a)
  {
  }

  /** The error over ten equal bins. */
  ghost function TenBinError(scores: seq<real>, labels: seq<bool>): real
    requires |scores| == |labels| > 0
  {
    AbsExcess(scores, labels, 10, 10) / |scores| as real
  }

  function ScoreOf(score: ScoreFunction): Sample -> real { (s: Sample) => score(s.features) }

  function SuccessOf(): Sample -> bool { (s: Sample) => s.success }

  function Served(k: Knots): real -> real { (x: real) => Lookup(x, k) }

  /** The table fitted on these samples' scores. */
  function FitOf(samples: seq<Sample>, score: ScoreFunction): Knots {
    FitKnots(ListOf(samples, ScoreOf(score)), ListOf(samples, SuccessOf()))
  }

  /** The table serves at 1 at least 0.05 more than at 0; its held-out error over ten bins is at most 0.1 and the raw one. */
  ghost predicate FitShips(fit: seq<Sample>, holdout: seq<Sample>, score: ScoreFunction)
    requires |holdout| > 0
  {
    var k, raw, labels := FitOf(fit, score), ListOf(holdout, ScoreOf(score)), ListOf(holdout, SuccessOf());
    var error := TenBinError(ListOf(raw, Served(k)), labels);
    Lookup(1.0, k) - Lookup(0.0, k) >= 0.05 && error <= TenBinError(raw, labels) && error <= 0.1
  }

  lemma FullRangeEnds(k: Knots)
    requires FullRange(k)
    ensures Lookup(0.0, k) == k.ys[0] && Lookup(1.0, k) == k.ys[|k.ys| - 1]
    ensures forall y | y in k.ys :: k.ys[0] <= y <= k.ys[|k.ys| - 1]
  {
    assert k.ys[0] in k.ys && k.ys[|k.ys| - 1] in k.ys;
  }

  lemma SpanByEnds(k: Knots)
    requires FullRange(k)
    ensures SpanAtLeast(k.ys, 0.05) <==> Lookup(1.0, k) - Lookup(0.0, k) >= 0.05
  {
    FullRangeEnds(k);
    assert k.ys[0] in k.ys && k.ys[|k.ys| - 1] in k.ys;
  }

  lemma SameLists(samples: seq<Sample>, score: ScoreFunction)
    ensures Scores(samples, score) == ListOf(samples, ScoreOf(score)) && Labels(samples) == ListOf(samples, SuccessOf())
  {
  }

  lemma SameCalibrated(raw: seq<real>, k: Knots)
    ensures Calibrated(raw, k) == ListOf(raw, Served(k))
  {
  }

  lemma WorthyIff(split: Split, score: ScoreFunction)
    requires |split.holdout| > 0
    ensures SpanAtLeast(FittedKnots(split, score).ys, MIN_Y_KNOT_SPAN) && HoldoutImproves(split, score, DEFAULT_ECE_BINS)
      <==> FitShips(split.fit, split.holdout, score)
  {
    SameLists(split.fit, score);
    SameLists(split.holdout, score);
    var k, raw, labels := FitOf(split.fit, score), ListOf(split.holdout, ScoreOf(score)), ListOf(split.holdout, SuccessOf());
    FitIsWellFormed(ListOf(split.fit, ScoreOf(score)), ListOf(split.fit, SuccessOf()));
    SpanByEnds(k);
    SameCalibrated(raw, k);
    EceIsBinned(raw, labels, 10);
    EceIsBinned(ListOf(raw, Served(k)), labels, 10);
  }

  /** The metrics trainer ships exactly when thirty samples leave something to fit and to hold out, and that fit may ship. */
  lemma TrainerShipsIff(contrib: seq<Sample>, packRows: seq<PackRow>, train: seq<Sample> -> ScoreFunction, rank: RankFunction)
    ensures var pool, s := LabeledSamples(contrib, packRows), TrainSplit(contrib, packRows, rank);
      var r := FitFromSamples(pool, train(pool), TrainOptions(contrib, packRows), rank);
      Ships(r.artifact) <==> |pool| >= 30 && |s.fit| > 0 && |s.holdout| > 0 && FitShips(s.fit, s.holdout, train(pool))
  {
    var pool, s := LabeledSamples(contrib, packRows), TrainSplit(contrib, packRows, rank);
    TrainerShipPassIsReal(contrib, packRows, train, rank);
    GatesAre(FitFromSamples(pool, train(pool), TrainOptions(contrib, packRows), rank).artifact);
    if |s.fit| > 0 && |s.holdout| > 0 {
      WorthyIff(s, train(pool));
    }
  }
}
