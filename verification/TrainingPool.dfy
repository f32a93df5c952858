/** Which rows reach the isotonic fit and its holdout, and when a fit counts as shippable. */
module TrainingPool {
  import opened Wrappers
  import opened Sorting
  import opened IsotonicPooling
  import opened IsotonicKnots
  import opened IsotonicEce
  import opened IsotonicTheorems
  import opened IsotonicCalibrator

  const SESSION_FIT_SIGNAL := "session_fit"
  const SESSION_HOLDOUT_SIGNAL := "session_holdout"
  const WEAK_LABEL_EXCLUDE_SIGNAL := "exclude_from_holdout_ece"

  datatype PackRow = PackRow(sampleId: string, features: seq<real>, success: bool, outcomeSignals: Option<seq<string>>)

  predicate HasSignal(row: PackRow, signal: string) { signal in row.outcomeSignals.GetOr([]) }

  predicate IsWeakLabel(row: PackRow) { HasSignal(row, WEAK_LABEL_EXCLUDE_SIGNAL) }

  predicate IsHoldoutRow(row: PackRow) { HasSignal(row, SESSION_HOLDOUT_SIGNAL) }

  /** Tagged for the fit side; a holdout tag wins when a row carries both. */
  predicate IsFitRow(row: PackRow) { HasSignal(row, SESSION_FIT_SIGNAL) && !IsHoldoutRow(row) }

  predicate IsUnpartitioned(row: PackRow) { !HasSignal(row, SESSION_FIT_SIGNAL) && !IsHoldoutRow(row) }

  function AcceptedRows(rows: seq<PackRow>): seq<PackRow> { Filter(rows, (r: PackRow) => !IsWeakLabel(r)) }

  function SampleOf(row: PackRow): Sample { Sample(row.sampleId, row.features, row.success) }

  function SamplesOfRows(rows: seq<PackRow>): (s: seq<Sample>)
    ensures |s| == |rows|
    ensures forall i | 0 <= i < |rows| :: s[i] == SampleOf(rows[i])
  {
    seq(|rows|, i requires 0 <= i < |rows| => SampleOf(rows[i]))
  }

  datatype Partition = Partition(fit: seq<PackRow>, holdout: seq<PackRow>, unpartitioned: seq<PackRow>) {
    predicate HasSessionPartition() { |fit| > 0 || |holdout| > 0 }
  }

  function PartitionOf(rows: seq<PackRow>): Partition {
    Partition(Filter(rows, IsFitRow), Filter(rows, IsHoldoutRow), Filter(rows, IsUnpartitioned))
  }

  method PartitionPackRowsBySession(rows: seq<PackRow>) returns (p: Partition)
    ensures p == PartitionOf(rows)
  {
    var fit, holdout, unpartitioned := [], [], [];
    var i := 0;
    while i < |rows|
      invariant 0 <= i <= |rows|
      invariant Partition(fit, holdout, unpartitioned) == PartitionOf(rows[..i])
    {
      var row := rows[i];
      assert rows[..i + 1] == rows[..i] + [row];
      FilterSnoc(rows[..i], row, IsFitRow);
      FilterSnoc(rows[..i], row, IsHoldoutRow);
      FilterSnoc(rows[..i], row, IsUnpartitioned);
      if HasSignal(row, SESSION_HOLDOUT_SIGNAL) {
        holdout := holdout + [row];
      } else if HasSignal(row, SESSION_FIT_SIGNAL) {
        fit := fit + [row];
      } else {
        unpartitioned := unpartitioned + [row];
      }
      i := i + 1;
    }
    assert rows[..|rows|] == rows;
    return Partition(fit, holdout, unpartitioned);
  }

  // ---------------------------------------------------------------------------
  // The pool
  // ---------------------------------------------------------------------------

  /** The samples the logistic model trains on. */
  function LabeledSamples(contrib: seq<Sample>, packRows: seq<PackRow>): seq<Sample> {
    contrib + SamplesOfRows(AcceptedRows(packRows))
  }

  /** The isotonic options of the metrics trainer: campaign tags fix the split, else the hash does. */
  function TrainOptions(contrib: seq<Sample>, packRows: seq<PackRow>): FitOptions {
    var p := PartitionOf(AcceptedRows(packRows));
    if p.HasSessionPartition() then
      DEFAULT_OPTIONS.(preSplit := Some(Split(
        contrib + SamplesOfRows(p.fit) + SamplesOfRows(p.unpartitioned), SamplesOfRows(p.holdout))))
    else DEFAULT_OPTIONS
  }

  /** Trains the classifier on the pool, then fits the calibrator with that classifier's scores. */
  method TrainCalibrator(contrib: seq<Sample>, packRows: seq<PackRow>, train: seq<Sample> -> ScoreFunction, rank: RankFunction)
    returns (r: FitResult)
    ensures var pool := LabeledSamples(contrib, packRows);
      r == FitFromSamples(pool, train(pool), TrainOptions(contrib, packRows), rank)
  {
    var accepted := AcceptedRows(packRows);
    var partition := PartitionPackRowsBySession(accepted);
    var pool := contrib + SamplesOfRows(accepted);
    var o := DEFAULT_OPTIONS;
    if partition.HasSessionPartition() {
      o := o.(preSplit := Some(Split(
        contrib + SamplesOfRows(partition.fit) + SamplesOfRows(partition.unpartitioned),
        SamplesOfRows(partition.holdout))));
    }
    r := FitIsotonicCalibratorFromSamples(pool, train(pool), o, rank);
  }

  ghost function SampleSet(rows: seq<PackRow>): multiset<Sample> { multiset(SamplesOfRows(rows)) }

  /** The samples the three parts hold between them. */
  ghost function HeldSamples(p: Partition): multiset<Sample> {
    SampleSet(p.fit) + SampleSet(p.unpartitioned) + SampleSet(p.holdout)
  }

  lemma SampleSetSnoc(rows: seq<PackRow>, row: PackRow)
    ensures SampleSet(rows + [row]) == SampleSet(rows) + multiset{SampleOf(row)}
  {
    assert SamplesOfRows(rows + [row]) == SamplesOfRows(rows) + [SampleOf(row)];
  }

  lemma AddRow(rows: seq<PackRow>, row: PackRow, p: PackRow -> bool)
    ensures SampleSet(Filter(rows + [row], p))
         == SampleSet(Filter(rows, p)) + if p(row) then multiset{SampleOf(row)} else multiset{}
  {
    FilterSnoc(rows, row, p);
    SampleSetSnoc(Filter(rows, p), row);
    assert Filter(rows, p) + [] == Filter(rows, p);
  }

  lemma PartitionAdds(rows: seq<PackRow>, row: PackRow)
    ensures HeldSamples(PartitionOf(rows + [row])) == HeldSamples(PartitionOf(rows)) + multiset{SampleOf(row)}
  {
    AddRow(rows, row, IsFitRow);
    AddRow(rows, row, IsHoldoutRow);
    AddRow(rows, row, IsUnpartitioned);
  }

  /** Every row falls in exactly one of the three parts. */
  lemma {:induction false} PartitionSplits(rows: seq<PackRow>)
    ensures SampleSet(rows) == HeldSamples(PartitionOf(rows))
  {
    if |rows| > 0 {
      var init, row := rows[..|rows| - 1], rows[|rows| - 1];
      PartitionSplits(init);
      assert rows == init + [row];
      PartitionAdds(init, row);
      SampleSetSnoc(init, row);
    }
  }

  /** The split the metrics trainer hands to the fit. */
  function TrainSplit(contrib: seq<Sample>, packRows: seq<PackRow>, rank: RankFunction): Split {
    ChosenSplit(LabeledSamples(contrib, packRows), TrainOptions(contrib, packRows), rank)
  }

  lemma TaggedSplitIsPermutation(contrib: seq<Sample>, packRows: seq<PackRow>, rank: RankFunction)
    requires PartitionOf(AcceptedRows(packRows)).HasSessionPartition()
    ensures var s := TrainSplit(contrib, packRows, rank);
      multiset(s.fit + s.holdout) == multiset(LabeledSamples(contrib, packRows))
  {
    PartitionSplits(AcceptedRows(packRows));
  }

  /** Weak rows are never accepted, and a holdout tag keeps an accepted row out of the fit. */
  lemma TagsDecideSides(packRows: seq<PackRow>)
    ensures forall r | r in AcceptedRows(packRows) :: r in packRows && !IsWeakLabel(r)
    ensures var p := PartitionOf(AcceptedRows(packRows));
      && (forall r | r in p.fit || r in p.unpartitioned :: !IsHoldoutRow(r) && !IsWeakLabel(r))
      && (forall r | r in AcceptedRows(packRows) && IsHoldoutRow(r) :: r in p.holdout)
  {
    var accepted := AcceptedRows(packRows);
    FilterMembers(packRows, (r: PackRow) => !IsWeakLabel(r));
    FilterMembers(accepted, IsFitRow);
    FilterMembers(accepted, IsHoldoutRow);
    FilterMembers(accepted, IsUnpartitioned);
  }

  /**
   * Pool integrity. Fit and holdout together are a permutation of the pool the logistic model
   * trained on; weak rows never enter it; with campaign tags the holdout is exactly the accepted
   * rows tagged for holdout, and without them the hash split leaves both sides non-empty from
   * two samples on.
   */
  lemma PoolIntegrity(contrib: seq<Sample>, packRows: seq<PackRow>, rank: RankFunction)
    ensures var pool, s := LabeledSamples(contrib, packRows), TrainSplit(contrib, packRows, rank);
      && multiset(s.fit + s.holdout) == multiset(pool)
      && PoolSize(pool, TrainOptions(contrib, packRows)) == |pool|
    ensures forall r | r in AcceptedRows(packRows) :: r in packRows && !IsWeakLabel(r)
    ensures var s, p := TrainSplit(contrib, packRows, rank), PartitionOf(AcceptedRows(packRows));
      if p.HasSessionPartition() then
        && s.holdout == SamplesOfRows(p.holdout)
        && s.fit == contrib + SamplesOfRows(p.fit) + SamplesOfRows(p.unpartitioned)
      else |LabeledSamples(contrib, packRows)| >= 2 ==> |s.fit| > 0 && |s.holdout| > 0
    ensures var p := PartitionOf(AcceptedRows(packRows));
      && (forall r | r in p.fit || r in p.unpartitioned :: !IsHoldoutRow(r) && !IsWeakLabel(r))
      && (forall r | r in AcceptedRows(packRows) && IsHoldoutRow(r) :: r in p.holdout)
  {
    var pool := LabeledSamples(contrib, packRows);
    TagsDecideSides(packRows);
    var s := TrainSplit(contrib, packRows, rank);
    if PartitionOf(AcceptedRows(packRows)).HasSessionPartition() {
      TaggedSplitIsPermutation(contrib, packRows, rank);
      assert |multiset(s.fit + s.holdout)| == |multiset(pool)|;
    } else {
      SplitIsPermutation(pool, DEFAULT_HOLDOUT_FRACTION, SPLIT_SEED, rank);
    }
  }

  // ---------------------------------------------------------------------------
  // Ship gates
  // ---------------------------------------------------------------------------

  const HARD_ECE_THRESHOLD := 0.1
  const MIN_Y_KNOT_SPAN := 0.05

  datatype GateId = TrainingGates | YSpan | EcePresent | EceImproves | EceAbsolute

  datatype Gate = Gate(id: GateId, passed: bool)

  predicate IsTrained(a: Artifact) { a.trainedSampleCount >= a.minTrainingSamples }

  function MaxOf(ys: seq<real>): (m: real)
    requires |ys| > 0
    ensures m in ys && forall y | y in ys :: y <= m
  {
    if |ys| == 1 then ys[0]
    else
      var m := MaxOf(ys[..|ys| - 1]);
      assert ys == ys[..|ys| - 1] + [ys[|ys| - 1]];
      Max(m, ys[|ys| - 1])
  }

  function MinOf(ys: seq<real>): (m: real)
    requires |ys| > 0
    ensures m in ys && forall y | y in ys :: m <= y
  {
    if |ys| == 1 then ys[0]
    else
      var m := MinOf(ys[..|ys| - 1]);
      assert ys == ys[..|ys| - 1] + [ys[|ys| - 1]];
      Min(m, ys[|ys| - 1])
  }

  /** Two knots lie at least `d` apart. */
  ghost predicate SpanAtLeast(ys: seq<real>, d: real) {
    exists a, b | a in ys && b in ys :: b - a >= d
  }

  lemma SpanDecides(ys: seq<real>, d: real)
    requires |ys| > 0
    ensures MaxOf(ys) - MinOf(ys) >= d <==> SpanAtLeast(ys, d)
  {
    if SpanAtLeast(ys, d) {
      var x, y :| x in ys && y in ys && y - x >= d;
      assert MinOf(ys) <= x && y <= MaxOf(ys);
    }
  }

  /** Both holdout errors were measured, and calibrating left a low one that is no worse than the raw one. */
  predicate EceImproved(a: Artifact) {
    && a.holdoutEceRaw.Some? && a.holdoutEceCalibrated.Some?
    && a.holdoutEceCalibrated.value <= a.holdoutEceRaw.value && a.holdoutEceCalibrated.value <= HARD_ECE_THRESHOLD
  }

  /** What a ship pass asks of an artifact: trained, y-knots that span something, an improved holdout error. */
  ghost predicate HardGatesPassed(a: Artifact) {
    IsTrained(a) && SpanAtLeast(a.knots.ys, MIN_Y_KNOT_SPAN) && EceImproved(a)
  }

  /** A failed gate names what the artifact lacks. */
  ghost predicate FailureMeans(a: Artifact, id: GateId) {
    match id
    case TrainingGates => false
    case YSpan => !SpanAtLeast(a.knots.ys, MIN_Y_KNOT_SPAN)
    case EcePresent => a.holdoutEceRaw.None? || a.holdoutEceCalibrated.None?
    case EceImproves => a.holdoutEceRaw.Some? && a.holdoutEceCalibrated.Some? && a.holdoutEceCalibrated.value > a.holdoutEceRaw.value
    case EceAbsolute => a.holdoutEceCalibrated.Some? && a.holdoutEceCalibrated.value > HARD_ECE_THRESHOLD
  }

  /**
   * The gates of a trained artifact all pass exactly when it may ship, and those of an untrained one always
   * do; a gate that fails fails for its own reason.
   */
  method EvaluateIsotonicHardGates(a: Artifact) returns (gates: seq<Gate>)
    ensures IsTrained(a) ==> ((forall g | g in gates :: g.passed) <==> HardGatesPassed(a))
    ensures !IsTrained(a) ==> gates == [Gate(TrainingGates, true)]
    ensures forall g | g in gates && !g.passed :: FailureMeans(a, g.id)
  {
    if !IsTrained(a) {
      return [Gate(TrainingGates, true)];
    }
    var ys := a.knots.ys;
    if |ys| > 0 {
      SpanDecides(ys, MIN_Y_KNOT_SPAN);
    }
    var span := Gate(YSpan, |ys| > 0 && MaxOf(ys) - MinOf(ys) >= MIN_Y_KNOT_SPAN);
    gates := [span];
    if a.holdoutEceRaw.None? || a.holdoutEceCalibrated.None? {
      gates := gates + [Gate(EcePresent, false)];
      assert gates[1] in gates;
      return;
    }
    var raw, calibrated := a.holdoutEceRaw.value, a.holdoutEceCalibrated.value;
    gates := gates + [Gate(EceImproves, calibrated <= raw)];
    gates := gates + [Gate(EceAbsolute, calibrated <= HARD_ECE_THRESHOLD)];
    assert gates[0] in gates && gates[1] in gates && gates[2] in gates;
  }

  /** The report's verdict: trained, and every gate passed. */
  method HardGateVerdict(a: Artifact) returns (passed: bool)
    ensures passed == HardGatesPassed(a)
  {
    var gates := EvaluateIsotonicHardGates(a);
    passed := IsTrained(a) && forall g | g in gates :: g.passed;
  }

  /** Calibrating the held-out scores leaves a low error that is no worse than theirs. */
  ghost predicate HoldoutImproves(split: Split, score: ScoreFunction, bins: int)
    requires |split.holdout| > 0 && bins >= 1
  {
    var raw, labels := Scores(split.holdout, score), Labels(split.holdout);
    var calibrated := Ece(Calibrated(raw, FittedKnots(split, score)), labels, bins);
    calibrated <= Ece(raw, labels, bins) && calibrated <= HARD_ECE_THRESHOLD
  }

  /** A fit worth shipping: both sides non-empty, a real span, and a holdout error that is low and no worse. */
  ghost predicate ShipWorthy(split: Split, score: ScoreFunction, bins: int)
    requires |split.fit| > 0 && |split.holdout| > 0 ==> bins >= 1
  {
    && |split.fit| > 0 && |split.holdout| > 0
    && SpanAtLeast(FittedKnots(split, score).ys, MIN_Y_KNOT_SPAN)
    && HoldoutImproves(split, score, bins)
  }

  /** What the trainer's artifact holds: the fit's knots and errors, or default ones without any error. */
  lemma ArtifactOf(samples: seq<Sample>, score: ScoreFunction, o: FitOptions, rank: RankFunction)
    requires BinsSuffice(samples, o, rank)
    ensures var r, split := FitFromSamples(samples, score, o, rank), ChosenSplit(samples, o, rank);
      if Fits(samples, o, rank) then
        && IsTrained(r.artifact) && r.artifact.knots == FittedKnots(split, score)
        && r.fitSampleCount == |split.fit| && r.holdoutSampleCount == |split.holdout|
        && (EceImproved(r.artifact) <==> |split.holdout| > 0 && HoldoutImproves(split, score, o.eceBins.GetOr(DEFAULT_ECE_BINS)))
      else !EceImproved(r.artifact)
  {
  }

  /**
   * A ship pass is never vacuous, and every ship-worthy fit passes: for any pool and options the
   * gates pass exactly when the pool reached its floor and the fit really ran on non-empty sides
   * with enough span and a low, improved holdout error.
   */
  lemma ShipPassIsReal(samples: seq<Sample>, score: ScoreFunction, o: FitOptions, rank: RankFunction)
    requires BinsSuffice(samples, o, rank)
    ensures var r, split := FitFromSamples(samples, score, o, rank), ChosenSplit(samples, o, rank);
      && (HardGatesPassed(r.artifact) <==>
          Fits(samples, o, rank) && ShipWorthy(split, score, o.eceBins.GetOr(DEFAULT_ECE_BINS)))
      && (Fits(samples, o, rank) ==>
          r.artifact.knots == FittedKnots(split, score)
          && r.fitSampleCount == |split.fit| && r.holdoutSampleCount == |split.holdout|)
  {
    ArtifactOf(samples, score, o, rank);
  }

  /**
   * A trained-looking artifact without a fit exists exactly when the pool reaches the default
   * floor but no fit ran: an all-holdout split, or a caller's floor above the default one.
   */
  lemma TrainedWithoutFit(samples: seq<Sample>, score: ScoreFunction, o: FitOptions, rank: RankFunction)
    requires BinsSuffice(samples, o, rank)
    ensures var r := FitFromSamples(samples, score, o, rank);
      IsTrained(r.artifact) && r.fitSampleCount == 0 <==>
      PoolSize(samples, o) >= MIN_TRAINING_SAMPLES && !Fits(samples, o, rank)
  {
  }

  /** A floor option one above the pool's size: no fit, yet the default artifact's own floor is met. */
  lemma HighFloorLooksTrained(samples: seq<Sample>, score: ScoreFunction, rank: RankFunction)
    requires |samples| >= MIN_TRAINING_SAMPLES
    ensures var r := FitFromSamples(samples, score, DEFAULT_OPTIONS.(minTrainingSamples := Some(|samples| + 1)), rank);
      IsTrained(r.artifact) && r.fitSampleCount == 0
  {
    TrainedWithoutFit(samples, score, DEFAULT_OPTIONS.(minTrainingSamples := Some(|samples| + 1)), rank);
  }

  /** Nothing but campaign rows, every accepted one of them held out. */
  predicate AllHeldOut(contrib: seq<Sample>, packRows: seq<PackRow>) {
    |contrib| == 0 && forall r | r in AcceptedRows(packRows) :: IsHoldoutRow(r)
  }

  lemma HoldoutTakesAllIff(accepted: seq<PackRow>)
    ensures var p := PartitionOf(accepted);
      |p.fit| == 0 && |p.unpartitioned| == 0 <==> forall r | r in accepted :: IsHoldoutRow(r)
  {
    NoneKept(accepted, IsFitRow);
    NoneKept(accepted, IsUnpartitioned);
  }

  lemma HoldoutTakesSome(accepted: seq<PackRow>)
    requires |accepted| > 0 && forall r | r in accepted :: IsHoldoutRow(r)
    ensures PartitionOf(accepted).HasSessionPartition()
  {
    NoneKept(accepted, IsHoldoutRow);
    assert accepted[0] in accepted;
  }

  lemma TrainerFitIsEmptyIff(contrib: seq<Sample>, packRows: seq<PackRow>, rank: RankFunction)
    requires |LabeledSamples(contrib, packRows)| >= 2
    ensures |TrainSplit(contrib, packRows, rank).fit| == 0 <==> AllHeldOut(contrib, packRows)
  {
    PoolIntegrity(contrib, packRows, rank);
    HoldoutTakesAllIff(AcceptedRows(packRows));
    if AllHeldOut(contrib, packRows) {
      HoldoutTakesSome(AcceptedRows(packRows));
    }
  }

  lemma NoneKept<T>(s: seq<T>, p: T -> bool)
    ensures |Filter(s, p)| == 0 <==> forall x | x in s :: !p(x)
  {
    FilterMembers(s, p);
    assert |Filter(s, p)| > 0 ==> Filter(s, p)[0] in Filter(s, p);
  }

  /** The trainer's artifact looks trained without a fit exactly when its pool is large enough and all held out. */
  lemma TrainerTrainedWithoutFit(contrib: seq<Sample>, packRows: seq<PackRow>, train: seq<Sample> -> ScoreFunction, rank: RankFunction)
    ensures var pool := LabeledSamples(contrib, packRows);
      var r := FitFromSamples(pool, train(pool), TrainOptions(contrib, packRows), rank);
      IsTrained(r.artifact) && r.fitSampleCount == 0 <==>
      |pool| >= MIN_TRAINING_SAMPLES && AllHeldOut(contrib, packRows)
  {
    var pool := LabeledSamples(contrib, packRows);
    PoolIntegrity(contrib, packRows, rank);
    TrainedWithoutFit(pool, train(pool), TrainOptions(contrib, packRows), rank);
    if |pool| >= MIN_TRAINING_SAMPLES {
      TrainerFitIsEmptyIff(contrib, packRows, rank);
    }
  }

  /** Thirty rows of sessions drawn for the holdout. */
  const HELD_OUT_ROWS := seq(MIN_TRAINING_SAMPLES, (i: nat) => PackRow("row", [], true, Some([SESSION_HOLDOUT_SIGNAL])))

  /** Trained on those alone, the artifact looks trained, although nothing was fitted. */
  lemma HeldOutLooksTrained(train: seq<Sample> -> ScoreFunction, rank: RankFunction)
    ensures var pool := LabeledSamples([], HELD_OUT_ROWS);
      var r := FitFromSamples(pool, train(pool), TrainOptions([], HELD_OUT_ROWS), rank);
      IsTrained(r.artifact) && r.fitSampleCount == 0 && r.artifact.knots == IDENTITY_KNOTS
  {
    var rows := HELD_OUT_ROWS;
    assert |SESSION_HOLDOUT_SIGNAL| != |WEAK_LABEL_EXCLUDE_SIGNAL|;
    FilterUniform(rows, (r: PackRow) => !IsWeakLabel(r), true);
    assert AcceptedRows(rows) == rows;
    TrainerTrainedWithoutFit([], rows, train, rank);
  }

  /** The metrics trainer's own verdict, on its pool, its split and the default floor and bins. */
  lemma TrainerShipPassIsReal(contrib: seq<Sample>, packRows: seq<PackRow>, train: seq<Sample> -> ScoreFunction, rank: RankFunction)
    ensures var pool, split := LabeledSamples(contrib, packRows), TrainSplit(contrib, packRows, rank);
      var r := FitFromSamples(pool, train(pool), TrainOptions(contrib, packRows), rank);
      HardGatesPassed(r.artifact) <==>
      |pool| >= MIN_TRAINING_SAMPLES && ShipWorthy(split, train(pool), DEFAULT_ECE_BINS)
  {
    var pool := LabeledSamples(contrib, packRows);
    PoolIntegrity(contrib, packRows, rank);
    ShipPassIsReal(pool, train(pool), TrainOptions(contrib, packRows), rank);
  }
}
