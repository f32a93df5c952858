# Verification model of the smart-router calibration and evaluation scripts

These Dafny modules model the offline half of the router: the isotonic calibrator, the training pool around it, the
labelling campaign and panel adjudication that feed the pool, the TwinRouterBench ingest and adapter, trace replay with
its cost track, and the tool-call argument fingerprint. `dafny verify dfyconfig.toml` checks all of it.

Code that loops over mutable state is written as methods (and, for the knot arrays, a class) with loop invariants; each
method is tied by its `ensures` to a function of its inputs or of the old state, and the promises below are lemmas about
those functions. Scores, costs and label means are reals; `Math.round(x)` is `floor(x + 1/2)`; a thrown error is a
`Result` or `Option` value. Hashes, digests, generators, graders, the trained classifier and locale order are arbitrary
function parameters, so every statement holds for all of them. A generator or grader is indexed by the call it answers,
so its answers may depend on everything that happened before.

## Main results

- **Calibrator.** The fitted map is the least-squares monotone map of the sample scores and the only minimiser there
  (`IsotonicTheorems.FitIsLeastSquares`, `FitIsUniqueMinimiser`), equals the max-min formula (`FitIsMaxMin`), has zero
  binned calibration error on its own labels at every bin count (`FitIsCalibratedInSample`), and does not change when
  samples are reordered or each repeated k times (`IsotonicInvariance.FitIgnoresOrderAndCopies`). Its knots always pass the
  validator, the collision branch and the repair loop never act on them (`IsotonicLookup.FitIsWellFormed`, `FitTabulates`),
  and the binary search agrees with a linear scan on every accepted table, repeated knots included. What it serves is said
  of the raw samples at every real score (`IsotonicRates.FitServesRates`), and the calibration error of the samples in
  equal parts of [0, 1] (`IsotonicBins.EceIsBinned`).
- **Training.** Fit plus holdout is a permutation of the trained pool (`TrainingPool.PoolIntegrity`); the hard gates pass
  if and only if a real fit ran on two non-empty sides with enough span and a low, improved error
  (`ShipPassIsReal`, `ShipGates.TrainerShipsIff`); what the pool takes from its rows and how the split falls are said
  position by position (`PoolContents`, `HoldoutShare`); when an artifact only looks trained is characterised exactly.
- **Labelling.** A completed campaign conserves generations and places each of them (`CampaignTheorems.CampaignConserves`)
  where its graders' scores call for (`CampaignVerdicts.RunLabelsTheUnanimous`),
  every row rests on two or three distinct permitted graders on one side of the pass score, every resolved adjudication on
  a strict majority of an independent panel of three, and rows from any number of runs under one seed never put a session
  on both sides of the trainer's split (`LabelFlow.NoSessionStraddlesTheSplit`). Over all inputs
  with an independent panel of some count, the greedy panel is always seated exactly from twice the size less one on
  (`PanelReach.GreedyReach`), and the default floors can be met exactly above pass score 1
  (`CampaignFloors.DefaultFloorsReachable`).
- **Ingest.** The early exit of the question-bank scan loses nothing, each benchmark keeps its first quota-many rows, and
  what the converter emits loads in the adapter exactly when no row's target tier is the name of an inherited object
  property (`TwinRouterTheorems.IngestLoadsIff`, `ScannedTrackLoadsIff`). Said of the upstream rows alone, there is one
  fixture for each instance, with its rows by upstream step (`TwinRouterRows.FixturesFollowInstances`), and what a scan
  keeps is greedy (`ScanRows.ScanIsGreedy`); any track at all adapts as `TrackFixtures.TrackAdapts` says.
- **Replay and cost.** Cheap-at-k replays telescope to the cheap-everywhere replay on validated fixtures; accumulated
  rounding is at most one millionth of a dollar a fixture, and validated fixtures of every number reach that. Every figure
  is said by catalog entries, prices and sums (`TraceCosts.TraceReplays`, `FixtureFigures`).
- **Adjudication.** A run ends normally, with every disagreement in exactly one of its two lists, if and only if no
  disagreement meets one of the stated guards (`AdjudicationTheorems.AdjudicationConserves`); whatever the models answer,
  if and only if none can (`AdjudicationEnds.AlwaysEndsIff`). Which disagreements are resolved, and why the others are not,
  is said by the panel's own answers (`AdjudicationVerdicts.SettlementIsCalledFor`).
- **Fingerprint.** A ban on delimiter characters in keys makes fingerprints decide shapes if and only if it has the dot, a
  bracket, and the colon or the pipe (`FingerprintCollisions.DecidesIff`).

## Findings

Properties one would expect and the code does not have, each with an input that shows it and the exact condition under
which the property does hold.

- scripts/eval/ingest-twinrouterbench-corpus.ts:240-242: the tier lookup indexes an object literal, so a `target_tier` of
  `constructor` or `toString` finds an inherited property, converts, and gives a track that does not load
  (`InheritedTierDoesNotLoad`). The track loads if and only if no kept row has such a tier (`IngestLoadsIff`).
- scripts/calibration/adversarial-label-campaign.ts:610-633: a generator id such as `constructor` passes the id check
  (line 71) but gets no entry of its own in the per-generator table (`InheritedNameIsValidId`, `ReportFallsShort`). The
  totals add up if and only if no generator has such an id or no task was selected (`CampaignReportIsComplete`).
- scripts/calibration/adversarial-label-campaign.ts:558-590: pass score 1 is accepted, yet no run with it meets the
  default floors (`PassScoreOneNeverValid`). Some run does if and only if the pass score is 2 to 9
  (`DefaultFloorsReachable`); with two, or with three, graders to every failed row it takes 3 or more
  (`UniformFloorsReachable`).
- scripts/calibration/adjudicate-disagreements.ts:290-329: the greedy panel can miss a panel that exists when models
  share an id (`GreedyCanMissAPanel`). When ids follow models it is complete (`PanelExistsIff`). In general, over all inputs
  with an independent panel of `count` members, it always seats `size` of them if and only if count >= 2 size - 1
  (`ShortPanelIsHalf`, `GreedyReach`).
- scripts/calibration/adjudicate-disagreements.ts:438-633: not every disagreement ends as resolved or residual. A report
  with `holdout_percent: 150` is accepted (274-277), and the first majority then throws uncaught (608), so there is no list
  at all (`PercentageEndsTheRun`). A run ends normally if and only if no disagreement with a known task and generator, a
  response and a panel has a malformed generator id, or a majority whose session draws no partition or whose row is
  rejected (`AdjudicationConserves`). It does so whatever the models answer if and only if no such break is possible
  (`AlwaysEndsIff`); on loaded tasks and checked client ids, if and only if the percentage is within [0, 100] or nothing can
  be decided (`LoadedRunAlwaysEndsIff`).
- scripts/calibration/adjudicate-disagreements.ts:54 and 332-358: two votes decide, which is a strict majority for all
  lists of n scores if and only if n <= 3 (`MajorityIsStrictUpToThree`).
- scripts/lib/isotonic-calibrator.ts:346-377: an all-holdout split, or a floor option above the default one, gives default
  knots with a trained-looking sample count. The default artifact compares with the constant floor, not with the option
  (`TrainedWithoutFit` says exactly when; `HighFloorLooksTrained`). In the metrics trainer that is so if and only if there
  are no contributions and 30 or more accepted rows, all tagged for the holdout (`TrainerTrainedWithoutFit`), as with 30
  such rows (`HeldOutLooksTrained`).
- scripts/lib/ast-tool-validation.ts:174-197: different argument shapes can share a fingerprint. `{x: {y: 1}}` collides with
  `{x: {}, "x.y": 1}` (`DottedKeyCollides`), `{x: [null]}` with `{x: [], "x[]": null}` (`BracketKeyCollides`),
  `{x: null, y: null}` with `{"x:null|y": null}` (`PipedKeyCollides`), and an empty key hides its nesting
  (`EmptyKeyCollides`). With non-empty keys free of a set of characters from `. : | [ ]`, fingerprints are equal exactly when
  shapes are, on all objects, if and only if the set has the dot, `[` or `]`, and `:` or `|` (`DecidesIff`).

## Model

| member | source | states |
|---|---|---|
| `IsotonicPooling.PoolIdenticalScores` | scripts/lib/isotonic-calibrator.ts:129-155 | the in-place loop computes the pooled list whose label sums and order the lemmas below fix |
| `IsotonicPooling.PoolPreservesTotals` | scripts/lib/isotonic-calibrator.ts:129-155 | every sum over samples of a function of score and label is unchanged by pooling |
| `IsotonicPooling.PoolWellPooled` | scripts/lib/isotonic-calibrator.ts:129-155 | pooling a sorted list gives strictly ascending scores in [0, 1] with positive weights |
| `IsotonicPav.MergeViolators` | scripts/lib/isotonic-calibrator.ts:182-199 | the inner loop over sums and weights merges exactly the groups whose last two means descend |
| `IsotonicPav.BlocksOfMerged` | scripts/lib/isotonic-calibrator.ts:186-198 | replacing the last two blocks by their summed block is the block view of joining the last two groups of pairs |
| `IsotonicPav.PoolAdjacentViolators` | scripts/lib/isotonic-calibrator.ts:173-199 | the stack loop ends with the blocks of the PAV groups, all non-empty with positive weight |
| `IsotonicOptimality.PavInvariant` | scripts/lib/isotonic-calibrator.ts:173-199 | every final group is such that no prefix of it lies below its mean, and group means strictly ascend |
| `IsotonicOptimality.ValuesCertified` | scripts/lib/isotonic-calibrator.ts:173-199 | block means carry an optimality certificate: running residuals never negative, zero at each block end |
| `IsotonicOptimality.CertifiedIsOptimal` | scripts/lib/isotonic-calibrator.ts:158-212 | a certified fit beats every monotone competitor by at least the squared distance between them |
| `IsotonicMaxMin.CertifiedIsMaxMin` | scripts/lib/isotonic-calibrator.ts:173-199 | a certified fit equals max over j <= i of min over k >= i of the mean of pairs j..k |
| `IsotonicMaxMin.PavIsMaxMin` | scripts/lib/isotonic-calibrator.ts:173-199 | the stack loop's block mean at each pooled pair is that max-min mean |
| `IsotonicKnots.KnotTable.Push` | scripts/lib/isotonic-calibrator.ts:218-228 | appends a knot, or averages into the last one on a repeated x; whole new table stated |
| `IsotonicKnots.KnotTable.LiftDecreases` | scripts/lib/isotonic-calibrator.ts:249-253 | the repair loop turns the values into their running maximum |
| `IsotonicKnots.KnotTable.Normalize` | scripts/lib/isotonic-calibrator.ts:230-256 | pads to 0 and 1 and repairs; an empty table yields the identity knots and is left alone |
| `IsotonicKnots.BuildKnots` | scripts/lib/isotonic-calibrator.ts:201-212 | emitting two ends per block through the table and normalising equals the pure emission |
| `IsotonicKnots.ApplyIsotonicLookup` | scripts/lib/isotonic-calibrator.ts:259-290 | the low/high loop terminates on any table at all and computes the served value |
| `IsotonicKnots.ValidateKnots` | scripts/lib/isotonic-calibrator.ts:408-441 | accepts exactly version 1 with equally many xs and ys, at least one, both ascending (ties allowed) and in [0, 1] |
| `IsotonicFit.FitIsotonicPAV` | scripts/lib/isotonic-calibrator.ts:158-212 | the whole fit, from scores and labels to knots, including the mismatched and empty inputs |
| `IsotonicFit.EmissionTabulates` | scripts/lib/isotonic-calibrator.ts:201-228 | emission of ascending blocks serves every pooled score its block mean and never repeats an x |
| `IsotonicLookup.LookupIsLinearScan` | scripts/lib/isotonic-calibrator.ts:259-290 | on every accepted table, repeated knots included, the search finds the last knot at or below the score, with a value in [0, 1] |
| `IsotonicLookup.LookupMonotone` | scripts/lib/isotonic-calibrator.ts:259-290 | on every accepted table a higher raw score never looks up a lower value |
| `IsotonicLookup.NormalizeTabulated` | scripts/lib/isotonic-calibrator.ts:230-256 | the repair loop changes nothing on emitted knots and padding keeps every served value |
| `IsotonicLookup.FitIsWellFormed` | scripts/lib/isotonic-calibrator.ts:158-256 | every fit has at least two strictly ascending x-knots from 0 to 1 with ascending values in [0, 1], so the validator accepts it |
| `IsotonicLookup.FitTabulates` | scripts/lib/isotonic-calibrator.ts:201-290 | no collision, no repair, and a lookup at a fit score returns its block mean |
| `IsotonicTheorems.SampleTotalIsPooled` | scripts/lib/isotonic-calibrator.ts:129-171 | sorting and pooling keep every sum over the samples |
| `IsotonicTheorems.FitIsLeastSquares` | scripts/lib/isotonic-calibrator.ts:158-212 | the looked-up fit is monotone and minimises the squared error over all monotone maps of the sample scores |
| `IsotonicTheorems.FitIsUniqueMinimiser` | scripts/lib/isotonic-calibrator.ts:158-212 | a monotone map with no larger error agrees with the fit at every sample score |
| `IsotonicTheorems.FitIsMaxMin` | scripts/lib/isotonic-calibrator.ts:158-212 | the looked-up value at each pooled score is the max-min label mean |
| `IsotonicServing.FitServes` | scripts/lib/isotonic-calibrator.ts:230-290 | at every real score, below the first knot included, the table serves the value of the last pooled score at or below it, or of the first one |
| `IsotonicServing.KnotsAreServed` | scripts/lib/isotonic-calibrator.ts:201-256 | every x-knot is 0, 1 or a pooled score, and every y-knot the value of some pooled score |
| `IsotonicRates.FitServesRates` | scripts/lib/isotonic-calibrator.ts:158-290 | the same over the raw samples: a score is served the greatest over starts of the least over ends of the success rate, at the last sample score at or below it or the first of all |
| `IsotonicRates.MaxMinRateIsUnique` | scripts/lib/isotonic-calibrator.ts:173-199 | only one value is that rate at a score |
| `IsotonicRates.KnotsAreRates` | scripts/lib/isotonic-calibrator.ts:201-256 | every y-knot is such a rate at some sample score, and every x-knot is 0, 1 or a sample score |
| `IsotonicTheorems.FitIsCalibratedInSample` | scripts/lib/isotonic-calibrator.ts:88-117 | calibration error of the looked-up fit scores against their own labels is 0 for every bin count >= 1 |
| `IsotonicInvariance.FitIgnoresOrderAndCopies` | scripts/lib/isotonic-calibrator.ts:129-212 | knots are unchanged by any reordering and by repeating every sample k >= 1 times |
| `IsotonicEce.FillBins` | scripts/lib/isotonic-calibrator.ts:97-104 | the accumulation loop leaves in each bin the count and sums of exactly its samples |
| `IsotonicEce.SumBins` | scripts/lib/isotonic-calibrator.ts:106-116 | the weighted sum over bins is the sum of absolute per-bin gaps over the sample count |
| `IsotonicEce.ComputeExpectedCalibrationError` | scripts/lib/isotonic-calibrator.ts:88-117 | computes the binned error, including the unscorable inputs that return 0 |
| `IsotonicEce.BinOfInRange` | scripts/lib/isotonic-calibrator.ts:99-100 | every score falls in a bin that exists |
| `IsotonicBins.BinsAreEqualWidth` | scripts/lib/isotonic-calibrator.ts:99-100 | a clamped score s is in bin b of n if and only if b/n <= s < (b+1)/n, or b is the last bin and s is 1 |
| `IsotonicBins.EceIsBinned` | scripts/lib/isotonic-calibrator.ts:88-117 | the error is, over those n equal parts, the sum of the absolute excess of scores over successes in each, per sample |
| `IsotonicEce.EceBounds` | scripts/lib/isotonic-calibrator.ts:88-117 | the error lies in [0, 1] and is at least the absolute mean score minus mean label |
| `IsotonicEce.EceRefines` | scripts/lib/isotonic-calibrator.ts:88-117 | multiplying the bin count by a positive integer never lowers the error |
| `IsotonicCalibrator.SplitIsPermutation` | scripts/lib/isotonic-calibrator.ts:55-76 | fit plus holdout is a permutation of the samples, the holdout is non-empty if and only if there are samples and the fraction is positive, the fit side if and only if there are two samples, or one and no positive fraction |
| `IsotonicCalibrator.HoldoutRanksFirst` | scripts/lib/isotonic-calibrator.ts:55-76 | the holdout is the lowest-ranked samples, the fit the rest, cut at the holdout count |
| `HoldoutShare.SplitIsByRank` | scripts/lib/isotonic-calibrator.ts:55-76 | the samples stand by rank, ties by position, and the first of them are held out: the nearest whole number to the share of the count, at least one for a positive share and never all of two or more |
| `IsotonicCalibrator.ScoreLabeledSamples` | scripts/lib/isotonic-calibrator.ts:304-317 | scores and labels are collected side by side in sample order |
| `IsotonicCalibrator.FitIsotonicCalibratorFromSamples` | scripts/lib/isotonic-calibrator.ts:320-405 | every branch: below the floor, pre-split or hashed, all-holdout default, fit with raw and calibrated errors |
| `TrainingPool.PartitionPackRowsBySession` | scripts/train-routing-calibration.ts:196-225 | the loop sorts rows by tag, holdout winning over fit |
| `TrainingPool.PartitionSplits` | scripts/train-routing-calibration.ts:196-225 | the three parts together are a permutation of the rows |
| `TrainingPool.TrainCalibrator` | scripts/train-routing-calibration.ts:899-964 | the calibrator is fitted on the pool the classifier trained on, split by campaign tags when any row has one |
| `TrainingPool.PoolIntegrity` | scripts/train-routing-calibration.ts:899-964 | fit plus holdout permutes the pool, no weak row enters, no holdout-tagged row is in the fit, the hash split leaves both sides non-empty from two samples |
| `PoolContents.PoolIsRows` | scripts/train-routing-calibration.ts:917-938 | the pool is the contributions followed, position by position, by the id, features and success of each row not marked exclude_from_holdout_ece |
| `PoolContents.SplitIsRows` | scripts/train-routing-calibration.ts:167-230 | when some row is tagged, the holdout is the rows tagged session_holdout, and the fit the contributions, the rows tagged session_fit alone and the untagged ones, in that order |
| `PoolContents.UntaggedSplitIsByRank` | scripts/train-routing-calibration.ts:932-938 | when none is tagged, a fifth of the pool is held out by rank under the fixed seed |
| `PoolContents.PositivesKept` | scripts/train-routing-calibration.ts:899-964 | fit and holdout together have the positives of the contributions plus those of the accepted rows |
| `TrainingPool.EvaluateIsotonicHardGates` | scripts/train-routing-calibration.ts:255-300 | a trained artifact's gates all pass if and only if two knots lie 0.05 apart, both errors are present, the calibrated one is no worse than the raw one and at most 0.1; a gate that fails fails for its own lack |
| `TrainingPool.HardGateVerdict` | scripts/train-routing-calibration.ts:303-386 | the report's verdict is true if and only if the artifact is trained and meets those conditions |
| `TrainingPool.SpanDecides` | scripts/train-routing-calibration.ts:255-300 | the span gate passes exactly when some two knot values differ by at least 0.05 |
| `TrainingPool.ShipPassIsReal` | scripts/lib/isotonic-calibrator.ts:346-405 | for any pool, options and classifier, gates pass if and only if a fit ran on two non-empty sides and is ship-worthy |
| `TrainingPool.TrainedWithoutFit` | scripts/lib/isotonic-calibrator.ts:346-377 | a trained-looking artifact without a fit exists exactly when the pool reaches the default floor and no fit ran |
| `TrainingPool.HighFloorLooksTrained` | scripts/lib/isotonic-calibrator.ts:346-377 | 30 samples or more and a floor option above their number give a trained-looking artifact without a fit |
| `TrainingPool.TrainerTrainedWithoutFit` | scripts/train-routing-calibration.ts:899-964 | the metrics trainer's artifact looks trained without a fit if and only if the pool has 30 samples, none contributed, and every accepted row is held out |
| `TrainingPool.HeldOutLooksTrained` | scripts/train-routing-calibration.ts:899-964 | thirty rows tagged for the holdout give identity knots that look trained |
| `TrainingPool.TrainerShipPassIsReal` | scripts/train-routing-calibration.ts:899-964 | the same equivalence for the metrics trainer's own pool and split |
| `ShipGates.GatesAre` | scripts/train-routing-calibration.ts:255-300 | an artifact passes if and only if its sample count reaches its floor, two y-knots lie 0.05 apart, and its calibrated error is no higher than its raw one and at most 0.1 |
| `ShipGates.TrainerShipsIff` | scripts/train-routing-calibration.ts:899-964 | the trainer ships if and only if thirty samples leave both sides non-empty, the table fitted on one serves at 1 at least 0.05 more than at 0, and on the other its error over ten equal bins is no higher than the raw one and at most 0.1 |
| `Fingerprint.BuildArgumentStructureLines` | scripts/lib/ast-tool-validation.ts:174-192 | the recursive loop over sorted keys fills exactly the specified lines |
| `FingerprintLines.LinesSay` | scripts/lib/ast-tool-validation.ts:174-192 | a line is printed if and only if some keys lead through objects to an entry of which it gives the dotted path and the type, or the path with [] and the type of its array's first element |
| `FingerprintLines.LexIff` | scripts/lib/ast-tool-validation.ts:179-179 | keys are ordered by their first differing character, a key before those it starts |
| `FingerprintLines.EntriesPrintInKeyOrder` | scripts/lib/ast-tool-validation.ts:179-189 | two entries print in key order, each with its own line before what it holds |
| `FingerprintShape.InnerDecides` | scripts/lib/ast-tool-validation.ts:184-189 | under one path and a decisive ban, equal nested lines of two values of one type mean equal shapes: nested objects key by key, arrays by their first element's type |
| `FingerprintShape.LinesDecide` | scripts/lib/ast-tool-validation.ts:174-192 | under a decisive ban on key characters, equal line lists of objects with distinct keys come from the same keys, in order, with the same shapes |
| `FingerprintShape.ShapeDecidesFingerprint` | scripts/lib/ast-tool-validation.ts:195-197 | equal shapes give equal fingerprints whatever the key order and literal values |
| `FingerprintShape.JoinDecides` | scripts/lib/ast-tool-validation.ts:195-197 | lines whose paths all lack the colon, or all lack the pipe, are given back by their joined text |
| `FingerprintShape.FingerprintDecidesShape` | scripts/lib/ast-tool-validation.ts:174-197 | with non-empty keys free of a dot, a bracket, and the colon or the pipe, fingerprints are equal if and only if shapes are |
| `FingerprintCollisions.DecidesIff` | scripts/lib/ast-tool-validation.ts:174-197 | a ban on delimiters in non-empty keys makes fingerprints decide shapes if and only if it has the dot, a bracket, and the colon or the pipe |
| `FingerprintCollisions.DottedKeyCollides` | scripts/lib/ast-tool-validation.ts:174-197 | any key `x.y` beside an empty object `x` collides with `y` nested under `x` |
| `FingerprintCollisions.BracketKeyCollides` | scripts/lib/ast-tool-validation.ts:187-189 | a key `x[]` beside an empty array `x` collides with a one-element array |
| `FingerprintCollisions.PipedKeyCollides` | scripts/lib/ast-tool-validation.ts:195-197 | a key made of `x`, `:null`, a pipe and `y` collides with two null entries `x` and `y` |
| `FingerprintCollisions.EmptyKeyCollides` | scripts/lib/ast-tool-validation.ts:180-186 | an entry nested under the empty key collides with the same entry beside an empty object |
| `FixtureSchema.CheapestIsLeast` | scripts/eval/fixture-schema.ts:183-194 | the reduce returns a least-priced model of the tier, and throws exactly when there is none |
| `TraceCosts.CheapestIff` | scripts/eval/fixture-schema.ts:183-194 | among equally priced models of the tier it is the first in the catalog |
| `FixtureSchema.ValidationDecides` | scripts/eval/fixture-schema.ts:207-240 | validation accepts exactly the fixtures with contiguous indices, known models and consistent tiers |
| `Grouping.GroupInOrder` | scripts/eval/ingest-twinrouterbench-corpus.ts:353-359 | the insertion-ordered table holds each key once, in first-seen order, with its items in input order |
| `TwinRouterIngest.AllocateCodeToolQuotas` | scripts/eval/ingest-twinrouterbench-corpus.ts:160-172 | quotas for exactly the three code/tool benchmarks, an error below 1 |
| `TwinRouterIngest.QuotasShareLimit` | scripts/eval/ingest-twinrouterbench-corpus.ts:160-172 | quotas sum to the limit, none negative, no two apart by more than one |
| `TwinRouterIngest.AppendSession` | scripts/eval/ingest-twinrouterbench-corpus.ts:363-377 | one sorted session is renumbered from 0 and pushed |
| `TwinRouterIngest.AssembleStaticTrack` | scripts/eval/ingest-twinrouterbench-corpus.ts:343-385 | drafts grouped by session, sorted, renumbered; an error on no drafts |
| `TwinRouterScan.ScanLine` | scripts/eval/ingest-twinrouterbench-corpus.ts:450-484 | one row is kept or skipped exactly as filters, conversion and remaining quota decide |
| `TwinRouterScan.ScanLines` | scripts/eval/ingest-twinrouterbench-corpus.ts:418-488 | the loop stops at the first point the limit is reached and fails on the first malformed row before it |
| `TwinRouterScan.ConvertQuestionBank` | scripts/eval/ingest-twinrouterbench-corpus.ts:403-499 | the whole conversion: kept drafts, skips, or the error |
| `TwinRouterTheorems.EarlyExitLosesNothing` | scripts/eval/ingest-twinrouterbench-corpus.ts:403-499 | the early exit keeps what a scan of the whole file would, cut at the limit only when there are no quotas |
| `TwinRouterTheorems.KeptWithinLimit` | scripts/eval/ingest-twinrouterbench-corpus.ts:160-172 | quotas cap the kept rows at the limit |
| `TwinRouterTheorems.FirstQuotaPerBenchmark` | scripts/eval/ingest-twinrouterbench-corpus.ts:403-499 | each benchmark keeps exactly its first quota-many convertible rows in file order |
| `TwinRouterTheorems.OnlyCodeTools` | scripts/eval/ingest-twinrouterbench-corpus.ts:182-186 | no other benchmark's row is kept when code/tool rows are preferred |
| `ScanRows.ScanIsGreedy` | scripts/eval/ingest-twinrouterbench-corpus.ts:403-499 | a line is kept if and only if it is a row that converts, of swebench, bfcl or pinchbench when those are preferred, and the kept lines ahead of it have used up neither the limit nor its benchmark's third of it |
| `ScanRows.ScanSkips` | scripts/eval/ingest-twinrouterbench-corpus.ts:424-486 | a line is reported as skipped, with which reason, if and only if the scan reaches it and it is malformed, unwanted, or wanted with room and does not convert |
| `ScanRows.ScanEndsAs` | scripts/eval/ingest-twinrouterbench-corpus.ts:403-499 | the scan fails exactly on the first malformed line it reaches when those are fatal, or on a file of blank lines; else its drafts are the kept rows converted, in file order, and it counts the rows it reached |
| `TwinRouterAdapter.AdaptTwinRouterBenchStaticTrack` | scripts/eval/twinrouterbench-adapter.ts:156-200 | regrouping, per-session sort, contiguity check, step conversion and validation, with every error |
| `TrackFixtures.SessionFixture` | scripts/eval/twinrouterbench-adapter.ts:103-185 | any session loads if and only if its step indices are 0 to n - 1 and each record can be priced and has a known target of its tier; then it gives one fixture with a step for each record at its index, the stated id, and the stated outcome |
| `TrackFixtures.TrackAdapts` | scripts/eval/twinrouterbench-adapter.ts:156-200 | any track loads if and only if all its sessions do, to one fixture each in order of first appearance |
| `TwinRouterTheorems.SessionLoads` | scripts/eval/twinrouterbench-adapter.ts:103-200 | one session of converted drafts becomes a valid fixture if and only if every target is a tier, and its steps are its drafts in order |
| `TwinRouterTheorems.InheritedTierDoesNotLoad` | scripts/eval/ingest-twinrouterbench-corpus.ts:240-242 | a ground-truth row whose target tier is "constructor" converts, and its track does not load |
| `TwinRouterTheorems.IngestLoadsIff` | scripts/eval/ingest-twinrouterbench-corpus.ts:276-385 | a non-empty list of converted rows assembles into a track the adapter accepts if and only if no row's target tier is an inherited name; then one valid fixture a session, in order |
| `TwinRouterTheorems.SessionsPartitionDrafts` | scripts/eval/ingest-twinrouterbench-corpus.ts:343-385 | the sessions' drafts together are a permutation of all drafts |
| `TwinRouterTheorems.UpstreamOrderKept` | scripts/eval/ingest-twinrouterbench-corpus.ts:363-368 | within a session steps follow the upstream index, ties in file order |
| `TwinRouterRows.TieredRowConverts` | scripts/eval/ingest-twinrouterbench-corpus.ts:240-306 | a row of the four tiers converts if and only if its tier id, if stated, is 0, 1, 2 or 3 in that order and its stage is one of the three |
| `TwinRouterRows.OtherTiersAreUnmappable` | scripts/eval/ingest-twinrouterbench-corpus.ts:240-242 | a row of another tier is skipped as unmappable unless the name is inherited |
| `MappedLists.KeyOrderIsFirstSeen` | scripts/eval/ingest-twinrouterbench-corpus.ts:353-359 | keys stand in the order of their first items |
| `TwinRouterRows.SessionsAreInstances` | scripts/eval/ingest-twinrouterbench-corpus.ts:306-359 | with digests that tell instances apart, sessions are the rows' instance ids in order of first appearance |
| `TwinRouterRows.FixturesFollowInstances` | scripts/eval/ingest-twinrouterbench-corpus.ts:276-385 | rows of the four tiers give one fixture for each instance id, in that order, whose steps are the instance's rows by upstream step, each with the row's own target, price, prefix and flags |
| `TwinRouterTheorems.ScannedTrackLoadsIff` | scripts/eval/ingest-twinrouterbench-corpus.ts:403-519 | whatever the scan options, a scan that returns drafts returns a track that loads if and only if no kept row names an inherited tier |
| `Labelling.MeanWithinBounds` | scripts/calibration/adversarial-label-campaign.ts:517-517 | a mean rounded to one decimal stays between integer bounds of its scores |
| `LabelCampaign.HasUniqueIds` | scripts/calibration/adversarial-label-campaign.ts:244-252 | the seen-set loop finds a repeated id exactly when there is one |
| `LabelCampaign.CheckCampaign` | scripts/calibration/adversarial-label-campaign.ts:414-451 | the option checks in order, with the error each raises |
| `LabelCampaign.GradeResponse` | scripts/calibration/adversarial-label-campaign.ts:495-501 | scores of the used graders in order, or the first bad score |
| `LabelCampaign.JudgeGeneration` | scripts/calibration/adversarial-label-campaign.ts:465-547 | one generation ends as a row, a disagreement or an error, as exclusion and unanimity decide |
| `LabelCampaign.RunAdversarialLabelingCampaign` | scripts/calibration/adversarial-label-campaign.ts:408-552 | the nested loops yield the sorted-out verdicts of every pair in order, or the first error |
| `CampaignVerdicts.RunCompletesIff` | scripts/calibration/adversarial-label-campaign.ts:408-552 | a run completes if and only if its clients and options are admissible and every generation has an answer, two permitted graders, their scores from 0 to 9, and a session where they agree |
| `CampaignVerdicts.VerdictIsCalledFor` | scripts/calibration/adversarial-label-campaign.ts:495-547 | a judged generation is labelled if and only if all its graders' scores are at least the pass score or all are below it, and set aside with exactly those scores if one is on each side; the row's id, features, tier, success, mean, signals and partition are stated |
| `CampaignVerdicts.CastIsUnique` | scripts/calibration/adversarial-label-campaign.ts:495-501 | the graders of a generation cast one list of scores |
| `CampaignVerdicts.RunLabelsTheUnanimous` | scripts/calibration/adversarial-label-campaign.ts:461-552 | in a completed run the verdict every generation's scores call for stands in the list it belongs to |
| `CampaignVerdicts.NothingElseIsListed` | scripts/calibration/adversarial-label-campaign.ts:461-552 | and each row and disagreement is one that some generation's scores call for |
| `CampaignFailures.RunFailsFirst` | scripts/calibration/adversarial-label-campaign.ts:461-515 | an admissible run that fails does so for the first generation in the loops' order that lacks something, and the error says what: an answer, two permitted graders, the first missing score, or the session of an agreement |
| `CampaignTheorems.CampaignConserves` | scripts/calibration/adversarial-label-campaign.ts:461-552 | generations = labelled + disagreements = tasks x generators; rows and disagreements are exactly the pairs' verdicts |
| `CampaignTheorems.UsedAreEligible` | scripts/calibration/adversarial-label-campaign.ts:474-487 | the used graders have distinct ids, none excluded, at most the maximum |
| `CampaignTheorems.EntryIsSound` | scripts/calibration/adversarial-label-campaign.ts:495-547 | a row rests on 2-3 distinct permitted graders' valid scores, all on one side; success scores at least the pass score, failure at most one below |
| `CampaignTheorems.LabeledRowsAreSound` | scripts/calibration/adversarial-label-campaign.ts:461-552 | so does every row of a completed run |
| `CampaignTheorems.SessionsStayTogether` | scripts/calibration/adversarial-label-campaign.ts:255-270 | rows of one session, even over two runs, get one partition under one seed and percentage |
| `CampaignReport.PerGenerator` | scripts/calibration/adversarial-label-campaign.ts:610-633 | the three loops count each generator's generations, rows and negatives, with no entry for inherited names |
| `CampaignReport.ReportTotalsMatch` | scripts/calibration/adversarial-label-campaign.ts:592-678 | per-generator totals add up to the run's if and only if no row carries an inherited name |
| `CampaignReport.CampaignReportIsComplete` | scripts/calibration/adversarial-label-campaign.ts:592-678 | for a completed run: if and only if no generator has such an id, or no task was selected |
| `CampaignReport.ValidateCampaignFloors` | scripts/calibration/adversarial-label-campaign.ts:558-590 | no violation exactly when there are rows, enough negatives and enough distinct failure scores |
| `ReportCounts.ReportCountsRows` | scripts/calibration/adversarial-label-campaign.ts:610-633 | the report lists exactly the generators with a row or a disagreement, inherited names apart, with the numbers of rows, failed rows and disagreements at the positions that name them |
| `ReportCounts.DefaultFloorsCount` | scripts/calibration/adversarial-label-campaign.ts:558-590 | the default floors ask for a row, a fifth of the rows failed, and five different judge scores among those |
| `CampaignWitness.InheritedNameIsValidId` | scripts/calibration/adversarial-label-campaign.ts:236-242 | "constructor" passes the client id check |
| `CampaignWitness.ReportListsGenerators` | scripts/calibration/adversarial-label-campaign.ts:610-633 | a completed run's report lists exactly its generators' ids that a table does not inherit |
| `CampaignWitness.ReportFallsShort` | scripts/calibration/adversarial-label-campaign.ts:610-633 | a campaign with a generator called "constructor" completes, and its report's generations are fewer than the run's |
| `CampaignReport.FailureScoresAreFew` | scripts/calibration/adversarial-label-campaign.ts:558-590 | with n graders to every failed row there are at most n (pass score - 1) + 1 distinct failure scores |
| `CampaignFloors.DefaultFloorsReachable` | scripts/calibration/adversarial-label-campaign.ts:558-590 | some completed run with a pass score meets the default floors if and only if the pass score is 2 to 9 |
| `CampaignFloors.UniformFloorsReachable` | scripts/calibration/adversarial-label-campaign.ts:558-590 | with n graders to every failed row, if and only if n (pass score - 1) is at least 4 and the pass score at most 9 |
| `CampaignFloors.LowRunCompletes` | scripts/calibration/adversarial-label-campaign.ts:461-552 | an accepted campaign whose responses and below-pass grades all arrive, with two graders left for each generator and a session id for each task, always completes |
| `CampaignReport.PassScoreOneNeverValid` | scripts/calibration/adversarial-label-campaign.ts:558-590 | a run with pass score 1 has too few distinct failure scores for the default floors |
| `Panel.SelectPanelForGenerator` | scripts/calibration/adjudicate-disagreements.ts:290-329 | the two passes over used-id and used-model sets seat the greedy panel, or report how many were seated |
| `PanelSeating.FirstComeIsSeated` | scripts/calibration/adjudicate-disagreements.ts:300-320 | only one list sits at ascending positions such that everyone passed over is of the generator's model, clashes with one seated before, or comes when the panel is full |
| `PanelSeating.PanelIsFirstCome` | scripts/calibration/adjudicate-disagreements.ts:290-329 | a panel is selected if and only if it is that list over the pool and then the fill, and is full |
| `Panel.PanelIsIndependent` | scripts/calibration/adjudicate-disagreements.ts:290-329 | a selected panel has the asked size, distinct models and ids, and not the generator's model |
| `Panel.PanelExistsIff` | scripts/calibration/adjudicate-disagreements.ts:290-329 | a panel needs enough permitted models, and when ids follow models exists exactly when there are enough |
| `Panel.GreedyCanMissAPanel` | scripts/calibration/adjudicate-disagreements.ts:300-313 | four references with one shared id for which the greedy pass fails though a panel exists |
| `Panel.ShortPanelIsHalf` | scripts/calibration/adjudicate-disagreements.ts:290-329 | shared ids or not, a short greedy panel is at least half of any independent one |
| `PanelReach.GreedyReach` | scripts/calibration/adjudicate-disagreements.ts:290-329 | an independent panel of a count makes the greedy pass succeed, on all inputs, if and only if the count is at least twice the size less one |
| `Panel.MajorityDecision` | scripts/calibration/adjudicate-disagreements.ts:332-358 | the vote count and rounded mean decide as specified, for any list |
| `Panel.SmallPanelDecidesByMajority` | scripts/calibration/adjudicate-disagreements.ts:332-358 | up to three scores a decision is a strict majority, and there is none exactly below two scores or on a one-one split |
| `Panel.MajorityIsStrictUpToThree` | scripts/calibration/adjudicate-disagreements.ts:54-54 | decisions are strict majorities for all lists of n scores if and only if n <= 3 |
| `Adjudication.ScorePanel` | scripts/calibration/adjudicate-disagreements.ts:548-580 | failed panelists are skipped, a missing client stops the panel |
| `Adjudication.SettleOne` | scripts/calibration/adjudicate-disagreements.ts:449-630 | one disagreement through every exit of the loop body |
| `Adjudication.RunAdjudication` | scripts/calibration/adjudicate-disagreements.ts:438-633 | the three output lists, or the uncaught error |
| `AdjudicationVerdicts.MajorityIsAgreement` | scripts/calibration/adjudicate-disagreements.ts:332-358 | up to three scores decide if and only if two are on one side, that way, with the mean of all to the nearest tenth |
| `AdjudicationVerdicts.SettlementIsCalledFor` | scripts/calibration/adjudicate-disagreements.ts:449-630 | a settled disagreement is resolved if and only if it is known, answered and heard by a full panel of which two agree; its entry and row are stated field by field, and otherwise the residual's reason is the one its state gives |
| `AdjudicationVerdicts.StopsIff` | scripts/calibration/adjudicate-disagreements.ts:546-617 | a disagreement ends the run if and only if it has a response and a panel and a malformed generator id, or an agreement with no session, a percentage outside [0, 100] or a row that is not accepted |
| `AdjudicationVerdicts.RunEndsIff` | scripts/calibration/adjudicate-disagreements.ts:438-633 | a run ends normally if and only if no disagreement does that |
| `AdjudicationVerdicts.RunListsWhatIsCalledFor` | scripts/calibration/adjudicate-disagreements.ts:438-633 | and then its two lists hold the outcome of every disagreement and nothing else |
| `AdjudicationVerdicts.GenerationIsKept` | scripts/calibration/adjudicate-disagreements.ts:474-524 | a settled disagreement keeps a generation exactly when it is known and has a response, the stored one where there is one: that text under its task, generator and model |
| `AdjudicationVerdicts.GenerationsAreListed` | scripts/calibration/adjudicate-disagreements.ts:438-633 | the generations of a run are exactly those |
| `AdjudicationTheorems.AdjudicationConserves` | scripts/calibration/adjudicate-disagreements.ts:438-633 | a run gets past its first n disagreements if and only if none of them breaks it, and then these, as task and generator pairs, are exactly the resolved and the residual ones together |
| `AdjudicationTheorems.ResolutionIsSound` | scripts/calibration/adjudicate-disagreements.ts:525-629 | a resolved entry rests on an independent panel of three, 2-3 distinct members' valid scores, a strict majority, and its session's partition and tag |
| `AdjudicationTheorems.ResolvedEntriesAreSound` | scripts/calibration/adjudicate-disagreements.ts:438-633 | so does every resolved entry of a run that ends normally |
| `AdjudicationTheorems.AbortsAreExplained` | scripts/calibration/adjudicate-disagreements.ts:546-617 | with valid generator ids, sessions and percentage, and acceptance of the rows the run can build, it ends normally whatever the models answer |
| `AdjudicationEnds.StepsEndIff` | scripts/calibration/adjudicate-disagreements.ts:449-630 | on given answers the loop gets past n disagreements if and only if none of them meets a breaking guard |
| `AdjudicationEnds.AlwaysEndsIff` | scripts/calibration/adjudicate-disagreements.ts:438-633 | the run ends normally for all responses and grades if and only if no disagreement may break it, decided from its inputs alone |
| `AdjudicationEnds.LoadedRunAlwaysEndsIff` | scripts/calibration/adjudicate-disagreements.ts:848-913 | on loaded tasks, checked client ids and the row parser that is so if and only if the percentage is within [0, 100] or no disagreement can be decided |
| `AdjudicationEnds.PercentageEndsTheRun` | scripts/calibration/adjudicate-disagreements.ts:274-277 | loaded inputs with one disagreement, a unanimous panel and a percentage of 150 end in the uncaught error |
| `PackAppend.AppendPackRowsDeduped` | scripts/calibration/adjudicate-disagreements.ts:397-435 | the seen-set loop grows the packs as specified and counts what it added |
| `PackAppend.AppendKeepsRows` | scripts/calibration/adjudicate-disagreements.ts:415-434 | existing rows stay a prefix, added rows come from entries of their side, and all resolved ids are present |
| `PackAppend.AppendIsIdempotent` | scripts/calibration/adjudicate-disagreements.ts:393-435 | appending any part of the same list again, in any order, changes nothing |
| `PackAppend.AppendKeepsIdsUnique` | scripts/calibration/adjudicate-disagreements.ts:397-435 | packs without a repeated sample id stay so, across both files |
| `PackAppend.AppendAddsEachNewIdOnce` | scripts/calibration/adjudicate-disagreements.ts:397-435 | exactly one row is added for each id not yet present |
| `PackAppend.FirstEntryIsAppended` | scripts/calibration/adjudicate-disagreements.ts:415-434 | of the entries that share a new id the first gives its row, on its own side, right after what was there |
| `LabelFlow.TagsPrintUniquely` | scripts/calibration/adversarial-label-campaign.ts:520-528 | no printed signal but the two session tags reads as one, whatever the client ids, and none marks a row weak |
| `LabelFlow.TrainerReadsTags` | scripts/train-routing-calibration.ts:183-230 | the trainer's tag predicates agree with the partition the labelling chose |
| `LabelFlow.CampaignRowsAreFiled` | scripts/calibration/adversarial-label-campaign.ts:518-547 | a campaign row carries exactly the tag its session draws |
| `LabelFlow.AdjudicatedRowsAreFiled` | scripts/calibration/adjudicate-disagreements.ts:608-629 | a resolved row carries exactly the tag its session draws |
| `LabelFlow.NoSessionStraddlesTheSplit` | scripts/train-routing-calibration.ts:196-225 | rows filed under one seed and percentage are all accepted and partitioned, with no session on both sides |
| `ScopedPicks.EligibleFacts` | scripts/calibration/pi-cli-clients.ts:159-162 | the eligible list is every permitted enabled model once, for any comparison |
| `ScopedPicks.TopUp` | scripts/calibration/pi-cli-clients.ts:186-212 | a filling loop adds unseen candidates until full |
| `ScopedPicks.TakeAvoiding` | scripts/calibration/pi-cli-clients.ts:195-203 | takes candidates not already chosen as graders until full |
| `ScopedPicks.PicksAreFourModels` | scripts/calibration/pi-cli-clients.ts:176-212 | four eligible models give two and two on four distinct models, and the fallback loop adds nothing |
| `ScopedPicks.PreferredGradersFirst` | scripts/calibration/pi-cli-clients.ts:176-185 | with two preferred models the graders are the first two of them |
| `PickOrder.PermittedIff` | scripts/calibration/pi-cli-clients.ts:74-88 | a model is barred if and only if it starts with smart-router/, contains customtools or is cursor/auto |
| `PickOrder.FavouredIff` | scripts/calibration/pi-cli-clients.ts:176-177 | a preferred grader is a google/ model whose name has flash or lite in it, in any case |
| `PickOrder.PicksAreLeast` | scripts/calibration/pi-cli-clients.ts:155-228 | for any total order of names the graders are the least two of the permitted models, preferred ones first, and the generators the least two of the rest; below four permitted models there is no pick |
| `ScopedPicks.PickScopedCampaignClients` | scripts/calibration/pi-cli-clients.ts:155-228 | the pick, or the error for too few or malformed models |
| `ScopedPicks.ScopedPicksSucceed` | scripts/calibration/pi-cli-clients.ts:155-228 | it succeeds whenever four permitted well-formed models are enabled, and success means four distinct permitted models |
| `ScopedPicks.PicksNeverStarve` | scripts/calibration/adversarial-label-campaign.ts:473-486 | a campaign with the picked clients excludes no grader and never stops for want of graders |
| `Replay.ReplayCounterfactualTrace` | scripts/eval/counterfactual-replay.ts:523-591 | the accumulators end as the totals of the step replays, or the first error |
| `TraceCosts.ResolvedCheapIs` | scripts/eval/counterfactual-replay.ts:490-512 | the cheap scenario is the first recorded one, else the first least-priced model of the tried tier at its price, succeeding where nothing above the zero tier was needed |
| `TraceCosts.TraceReplays` | scripts/eval/counterfactual-replay.ts:523-591 | any trace replays if and only if each step names a catalog model as its least and has a cheap scenario to resolve; its totals are sums and counts over steps that carry their own figures and the price of that least model |
| `Replay.ReplaySucceedsIff` | scripts/eval/counterfactual-replay.ts:490-591 | a validated fixture replays if and only if every step has a recorded cheap scenario or a model in its cheap tier |
| `Replay.DerivedCheapIsCheapest` | scripts/eval/counterfactual-replay.ts:490-512 | a derived scenario costs no more than any model of its tier and succeeds exactly where the minimum tier ranks no higher than the zero tier |
| `Replay.ReplayRegretIsSumOfSteps` | scripts/eval/counterfactual-replay.ts:536-585 | cumulative regret is the sum of step regrets |
| `Replay.CheapReplaysTelescope` | scripts/eval/counterfactual-replay.ts:523-591 | on a validated fixture the cheap-at-k differences add up to cheap-everywhere minus actual, and so do the failures |
| `Replay.CheapReplayAtStep` | scripts/eval/counterfactual-replay.ts:543-552 | going cheap at step k alone changes the total by that step's difference |
| `CostTrack.FrontierBaselineCost` | scripts/eval/harness-tracks.ts:195-211 | every step priced on the cheapest frontier model, failing when there is none |
| `CostTrack.ScoreCostTrack` | scripts/eval/harness-tracks.ts:214-236 | rounded figures of the replay and the baseline, with the ratio guards |
| `CostTrack.AggregateHarnessMetrics` | scripts/eval/harness-tracks.ts:336-371 | rounded sums of the three cost columns |
| `TraceCosts.BaselineIsPriced` | scripts/eval/harness-tracks.ts:195-211 | the baseline is all tokens at the price of the first least-priced frontier model, and fails exactly when there are steps and no such model |
| `TraceCosts.FixtureFigures` | scripts/eval/harness-tracks.ts:214-236 | each figure is the nearest millionth to the replay's or the baseline's; the ratios the nearest to hindsight over actual and to the share of the baseline saved, or 1 and 0 where there is nothing to divide by |
| `TraceCosts.AggregateIsNearest` | scripts/eval/harness-tracks.ts:336-371 | the aggregate's columns are the nearest millionths to the sums of the fixtures' own |
| `CostTrack.RegretWithinOneUnit` | scripts/eval/harness-tracks.ts:229-232 | a fixture's rounded regret misses its rounded totals' difference by at most one millionth |
| `CostTrack.AggregateDriftBound` | scripts/eval/harness-tracks.ts:344-371 | the aggregate's rounded regret is within fixture count x 10^-6 of rounded actual minus rounded hindsight |
| `CostTrack.DriftBoundIsTight` | scripts/eval/harness-tracks.ts:336-371 | for every number of fixtures, validated fixtures exist whose scored replays reach that bound |

## Left out

- FitIsLeastSquares: stated on scores clamped to [0, 1], as the fit reads them; classifier scores lie there. Raw scores
  1 and 2 with labels 0 and 1 are pooled by the clamp although a monotone map could separate them.
- ComputeExpectedCalibrationError: a bin count below 1 on scorable input is not modelled (the script would index an
  empty bin list).
- FingerprintDecidesShape: key order is by Unicode scalar value, where JavaScript compares UTF-16 code units; this only
  matters for the order of keys outside the basic plane, not for equality of shapes.
- GradeResponse: scores are kept in grader order; a JavaScript object moves keys that are decimal integers to the front.
  No decision depends on that order.
- AdjudicatedRow: its grader signals are in panel order, where the same move puts integer-like panelist ids first; the
  order stated for the signals and ids of a row is that of the panel or the graders.
- IEEE-754 rounding, NaN and infinities: exact reals throughout.
- SHA-256, `hashSplitRank`, session digests and locale comparison: arbitrary functions.
- Files, command lines, HTTP, model calls, retries and console output.
- JSON parsing, zod schemas, regexes for taint names, and the free-text parts of error messages and reports.
- `normalizeToolCall`, `parseArguments`, `extractJsonCandidates` and `validateToolCallAst`: case analysis without a
  property that spans functions.
- Flattening of message content blocks to text in the ingest: rows start from flattened messages.
- The filter that turns contribution records into samples, and `src/domain`: the pool starts from samples, the classifier
  is a parameter.
- The capability and continuity tracks, per-grader counts and mean rates: independent counts over single steps.
- The frontier and LLMRouterBench ingests, `trainHydraProjection`, OATS normalisation, head-mode scoring and benchmark
  profiles.
- The optional `capability_score` of a catalog model, panelist model names in the adjudication report, and report
  formatting.
