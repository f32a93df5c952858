/** Counterfactual replay of a trace: actual, hindsight and cheap-at-k totals. */
module Replay {
  import opened Wrappers
  import opened FixtureSchema

  datatype StepReplay = StepReplay(
    stepIndex: int, prefixHash: string, actualTier: Tier, actualCost: real, hindsightTier: Tier, hindsightCost: real,
    regret: real, verified: bool, cheap: Counterfactual)

  datatype Totals = Totals(
    actual: real, hindsight: real, regret: real, cheapAtK: real, cheapAtKFailed: nat, verifiedSteps: nat, steps: seq<StepReplay>)

  function FirstCheap(counterfactuals: seq<Counterfactual>): Option<Counterfactual> {
    if |counterfactuals| == 0 then None
    else if counterfactuals[0].scenario == CheapAtStepK then Some(counterfactuals[0])
    else FirstCheap(counterfactuals[1..])
  }

  function CheapTier(step: TraceStep): Tier {
    if step.outcome.minTier == FrontierCloud then EconomicalCloud else ZeroTier
  }

  /** The recorded cheap scenario, else one derived from the cheapest model a tier below need. */
  function ResolveCheapCounterfactual(step: TraceStep, catalog: FrozenCatalog): Result<Counterfactual, FixtureError> {
    match FirstCheap(step.counterfactuals)
    case Some(recorded) => Ok(recorded)
    case None =>
      var tier := CheapTier(step);
      match CheapestModelForTier(catalog, tier)
      case None => Err(NoModelForTier(tier))
      case Some(m) =>
        match EstimateStepCostUsd(catalog, m.modelId, step.prefixTokenEstimate)
        case None => Err(UnknownModel(Some(m.modelId)))
        case Some(cost) => Ok(Counterfactual(CheapAtStepK, tier, m.modelId, TierAtLeast(tier, step.outcome.minTier), cost))
  }

  function ReplayStep(step: TraceStep, catalog: FrozenCatalog): Result<StepReplay, FixtureError> {
    match LookupId(catalog.models, step.outcome.minModelId)
    case None => Err(UnknownModel(step.outcome.minModelId))
    case Some(minModel) =>
      var hindsight := StepCost(minModel, step.prefixTokenEstimate);
      match ResolveCheapCounterfactual(step, catalog)
      case Err(e) => Err(e)
      case Ok(cheap) => Ok(StepReplay(
        step.stepIndex, step.prefixHash, step.actual.tier, step.actual.costUsd, step.outcome.minTier, hindsight,
        step.actual.costUsd - hindsight, step.outcome.verifiedToolProgression, cheap))
  }

  function StepReplays(f: Fixture): (r: seq<Result<StepReplay, FixtureError>>)
    ensures |r| == |f.steps| && forall i | 0 <= i < |r| :: r[i] == ReplayStep(f.steps[i], f.catalog)
  {
    seq(|f.steps|, i requires 0 <= i < |f.steps| => ReplayStep(f.steps[i], f.catalog))
  }

  /** Cheap applies everywhere, or only at the step the option names. */
  predicate Applies(k: Option<int>, s: StepReplay) { k.None? || s.stepIndex == k.value }

  function ActualTotal(steps: seq<StepReplay>): real {
    if |steps| == 0 then 0.0 else ActualTotal(steps[..|steps| - 1]) + steps[|steps| - 1].actualCost
  }

  function HindsightTotal(steps: seq<StepReplay>): real {
    if |steps| == 0 then 0.0 else HindsightTotal(steps[..|steps| - 1]) + steps[|steps| - 1].hindsightCost
  }

  function RegretTotal(steps: seq<StepReplay>): real {
    if |steps| == 0 then 0.0 else RegretTotal(steps[..|steps| - 1]) + steps[|steps| - 1].regret
  }

  function CheapTotal(steps: seq<StepReplay>, k: Option<int>): real {
    if |steps| == 0 then 0.0
    else
      var s := steps[|steps| - 1];
      CheapTotal(steps[..|steps| - 1], k) + if Applies(k, s) then s.cheap.costUsd else s.actualCost
  }

  function CheapFailures(steps: seq<StepReplay>, k: Option<int>): nat {
    if |steps| == 0 then 0
    else
      var s := steps[|steps| - 1];
      CheapFailures(steps[..|steps| - 1], k) + if Applies(k, s) && !s.cheap.wouldSucceed then 1 else 0
  }

  function VerifiedSteps(steps: seq<StepReplay>): nat {
    if |steps| == 0 then 0 else VerifiedSteps(steps[..|steps| - 1]) + if steps[|steps| - 1].verified then 1 else 0
  }

  function TotalsOf(steps: seq<StepReplay>, k: Option<int>): Totals {
    Totals(ActualTotal(steps), HindsightTotal(steps), ActualTotal(steps) - HindsightTotal(steps),
           CheapTotal(steps, k), CheapFailures(steps, k), VerifiedSteps(steps), steps)
  }

  function Replayed(f: Fixture, k: Option<int>): Result<Totals, FixtureError> {
    match Collect(StepReplays(f))
    case Err(e) => Err(e)
    case Ok(steps) => Ok(TotalsOf(steps, k))
  }

  lemma TotalsSnoc(steps: seq<StepReplay>, s: StepReplay, k: Option<int>)
    ensures ActualTotal(steps + [s]) == ActualTotal(steps) + s.actualCost
    ensures HindsightTotal(steps + [s]) == HindsightTotal(steps) + s.hindsightCost
    ensures CheapTotal(steps + [s], k) == CheapTotal(steps, k) + if Applies(k, s) then s.cheap.costUsd else s.actualCost
    ensures CheapFailures(steps + [s], k) == CheapFailures(steps, k) + if Applies(k, s) && !s.cheap.wouldSucceed then 1 else 0
    ensures VerifiedSteps(steps + [s]) == VerifiedSteps(steps) + if s.verified then 1 else 0
  {
    assert (steps + [s])[..|steps|] == steps;
  }

  /** The totals once one more step is replayed. */
  function WithStep(t: Totals, s: StepReplay, k: Option<int>): Totals {
    var actual, hindsight := t.actual + s.actualCost, t.hindsight + s.hindsightCost;
    Totals(actual, hindsight, actual - hindsight,
           t.cheapAtK + (if Applies(k, s) then s.cheap.costUsd else s.actualCost),
           t.cheapAtKFailed + (if Applies(k, s) && !s.cheap.wouldSucceed then 1 else 0),
           t.verifiedSteps + (if s.verified then 1 else 0), t.steps + [s])
  }

  lemma TotalsGrow(steps: seq<StepReplay>, s: StepReplay, k: Option<int>)
    ensures TotalsOf(steps + [s], k) == WithStep(TotalsOf(steps, k), s, k)
  {
    TotalsSnoc(steps, s, k);
  }

  /** The first i steps replayed, with their totals. */
  ghost predicate ReplayedUpTo(f: Fixture, k: Option<int>, i: nat, t: Totals) {
    i <= |f.steps| && Collect(StepReplays(f)[..i]) == Ok(t.steps) && t == TotalsOf(t.steps, k)
  }

  lemma ReplayOne(f: Fixture, k: Option<int>, i: nat, t: Totals, s: StepReplay)
    requires ReplayedUpTo(f, k, i, t) && i < |f.steps| && ReplayStep(f.steps[i], f.catalog) == Ok(s)
    ensures ReplayedUpTo(f, k, i + 1, WithStep(t, s, k))
  {
    CollectSnoc(StepReplays(f), i);
    TotalsGrow(t.steps, s, k);
  }

  lemma ReplayStops(f: Fixture, k: Option<int>, i: nat, steps: seq<StepReplay>)
    requires i < |f.steps| && Collect(StepReplays(f)[..i]) == Ok(steps) && ReplayStep(f.steps[i], f.catalog).Err?
    ensures Replayed(f, k) == Err(ReplayStep(f.steps[i], f.catalog).error)
  {
    CollectSnoc(StepReplays(f), i);
    CollectStops(StepReplays(f), i + 1);
  }

  lemma ReplayEnds(f: Fixture, k: Option<int>, steps: seq<StepReplay>)
    requires Collect(StepReplays(f)[..|f.steps|]) == Ok(steps)
    ensures Replayed(f, k) == Ok(TotalsOf(steps, k))
  {
    assert StepReplays(f)[..|f.steps|] == StepReplays(f);
  }

  /** The loop's additions for one step: its cheap scenario where that applies, what was paid elsewhere. */
  method AddStep(k: Option<int>, s: StepReplay, t: Totals) returns (t': Totals)
    ensures t' == WithStep(t, s, k)
  {
    var actualTotal, hindsightTotal := t.actual + s.actualCost, t.hindsight + s.hindsightCost;
    var cheapTotal, cheapFailed, verifiedSteps := t.cheapAtK, t.cheapAtKFailed, t.verifiedSteps;
    if k.None? || s.stepIndex == k.value {
      cheapTotal := cheapTotal + s.cheap.costUsd;
      if !s.cheap.wouldSucceed {
        cheapFailed := cheapFailed + 1;
      }
    } else {
      cheapTotal := cheapTotal + s.actualCost;
    }
    if s.verified {
      verifiedSteps := verifiedSteps + 1;
    }
    t' := Totals(actualTotal, hindsightTotal, actualTotal - hindsightTotal, cheapTotal, cheapFailed, verifiedSteps, t.steps + [s]);
  }

  method ReplayCounterfactualTrace(f: Fixture, k: Option<int>) returns (r: Result<Totals, FixtureError>)
    ensures r == Replayed(f, k)
  {
    var totals := Totals(0.0, 0.0, 0.0, 0.0, 0, 0, []);
    var i := 0;
    while i < |f.steps|
      invariant ReplayedUpTo(f, k, i, totals)
    {
      var replay := ReplayStep(f.steps[i], f.catalog);
      if replay.Err? {
        ReplayStops(f, k, i, totals.steps);
        return Err(replay.error);
      }
      ReplayOne(f, k, i, totals, replay.value);
      totals := AddStep(k, replay.value, totals);
      i := i + 1;
    }
    ReplayEnds(f, k, totals.steps);
    return Ok(totals);
  }

  // ---------------------------------------------------------------------------
  // What a replay of a validated fixture says
  // ---------------------------------------------------------------------------

  /** The step has a recorded cheap scenario, or the catalog a model in its cheap tier. */
  predicate HasCheap(step: TraceStep, catalog: FrozenCatalog) {
    FirstCheap(step.counterfactuals).Some? || exists m | m in catalog.models :: m.tier == CheapTier(step)
  }

  lemma {:induction false} LookupFinds(models: seq<CatalogModel>, m: CatalogModel)
    requires m in models
    ensures LookupModel(models, m.modelId).Some?
  {
  }

  lemma StepReplaysIff(step: TraceStep, catalog: FrozenCatalog)
    requires ValidStep(catalog, step)
    ensures ReplayStep(step, catalog).Ok? <==> HasCheap(step, catalog)
  {
    CheapestIsLeast(catalog, CheapTier(step));
  }

  /** A validated fixture replays exactly when every step has a cheap scenario to resolve. */
  lemma ReplaySucceedsIff(f: Fixture, k: Option<int>)
    requires ValidateFixture(f).Ok?
    ensures Replayed(f, k).Ok? <==> forall s | s in f.steps :: HasCheap(s, f.catalog)
  {
    ValidationDecides(f);
    CollectDecides(StepReplays(f));
    forall i | 0 <= i < |f.steps| ensures StepReplays(f)[i].Ok? <==> HasCheap(f.steps[i], f.catalog) {
      assert f.steps[i] in f.steps;
      StepReplaysIff(f.steps[i], f.catalog);
    }
  }

  /** A derived cheap scenario costs no more than any model of its tier, and succeeds only where nothing is needed. */
  lemma DerivedCheapIsCheapest(step: TraceStep, catalog: FrozenCatalog)
    requires FirstCheap(step.counterfactuals).None? && ResolveCheapCounterfactual(step, catalog).Ok?
    requires forall i, j | 0 <= i < j < |catalog.models| :: catalog.models[i].modelId != catalog.models[j].modelId
    ensures var c := ResolveCheapCounterfactual(step, catalog).value;
      && (forall m | m in catalog.models && m.tier == c.tier :: c.costUsd <= StepCost(m, step.prefixTokenEstimate))
      && (c.wouldSucceed <==> TierRank(step.outcome.minTier) <= TierRank(ZeroTier))
  {
    CheapestIsLeast(catalog, CheapTier(step));
    var m := CheapestModelForTier(catalog, CheapTier(step)).value;
    UniqueLookup(catalog.models, m);
    CheaperCostsLess(catalog, m, step.prefixTokenEstimate);
  }

  lemma CheaperCostsLess(catalog: FrozenCatalog, m: CatalogModel, tokens: nat)
    requires forall n | n in catalog.models && n.tier == m.tier :: m.costPerMillionUsd <= n.costPerMillionUsd
    ensures forall n | n in catalog.models && n.tier == m.tier :: StepCost(m, tokens) <= StepCost(n, tokens)
  {
    forall n | n in catalog.models && n.tier == m.tier ensures StepCost(m, tokens) <= StepCost(n, tokens) {
      ScaleOrder(tokens as real / 1_000_000.0, m.costPerMillionUsd, n.costPerMillionUsd);
    }
  }

  lemma ScaleOrder(t: real, a: real, b: real)
    requires t >= 0.0 && a <= b
    ensures t * a <= t * b
  {
    assert t * (b - a) >= 0.0;
  }

  lemma {:induction false} UniqueLookup(models: seq<CatalogModel>, m: CatalogModel)
    requires m in models
    requires forall i, j | 0 <= i < j < |models| :: models[i].modelId != models[j].modelId
    ensures LookupModel(models, m.modelId) == Some(m)
  {
    LookupFinds(models, m);
    var found := LookupModel(models, m.modelId).value;
    var i :| 0 <= i < |models| && models[i] == found;
    var j :| 0 <= j < |models| && models[j] == m;
  }

  /** The cumulative regret is the sum of the steps' regrets. */
  lemma {:induction false} RegretIsSumOfSteps(steps: seq<StepReplay>)
    requires forall s | s in steps :: s.regret == s.actualCost - s.hindsightCost
    ensures ActualTotal(steps) - HindsightTotal(steps) == RegretTotal(steps)
  {
    if |steps| > 0 {
      RegretIsSumOfSteps(steps[..|steps| - 1]);
      assert steps[|steps| - 1] in steps;
    }
  }

  lemma StepRegret(step: TraceStep, catalog: FrozenCatalog, s: StepReplay)
    requires ReplayStep(step, catalog) == Ok(s)
    ensures s.regret == s.actualCost - s.hindsightCost
  {
  }

  lemma ReplayRegretIsSumOfSteps(f: Fixture, k: Option<int>)
    requires Replayed(f, k).Ok?
    ensures Replayed(f, k).value.regret == RegretTotal(Replayed(f, k).value.steps)
  {
    var steps := Replayed(f, k).value.steps;
    CollectDecides(StepReplays(f));
    forall s | s in steps ensures s.regret == s.actualCost - s.hindsightCost {
      var i :| 0 <= i < |steps| && steps[i] == s;
      StepRegret(f.steps[i], f.catalog, s);
    }
    RegretIsSumOfSteps(steps);
  }

  predicate Numbered(steps: seq<StepReplay>) { forall i | 0 <= i < |steps| :: steps[i].stepIndex == i }

  /** Going cheap at one step changes the total by that step's difference. */
  lemma {:induction false} CheapAtOne(steps: seq<StepReplay>, k: nat)
    requires Numbered(steps)
    ensures CheapTotal(steps, Some(k)) - ActualTotal(steps) == if k < |steps| then steps[k].cheap.costUsd - steps[k].actualCost else 0.0
    ensures CheapFailures(steps, Some(k)) == if k < |steps| && !steps[k].cheap.wouldSucceed then 1 else 0
  {
    if |steps| > 0 {
      var init := steps[..|steps| - 1];
      assert Numbered(init);
      CheapAtOne(init, k);
      assert k < |init| ==> init[k] == steps[k];
    }
  }

  /** Sum over k below n of what going cheap at k alone would change. */
  function DifferencesAtEach(steps: seq<StepReplay>, n: nat): real {
    if n == 0 then 0.0 else DifferencesAtEach(steps, n - 1) + (CheapTotal(steps, Some(n - 1)) - ActualTotal(steps))
  }

  function FailuresAtEach(steps: seq<StepReplay>, n: nat): nat {
    if n == 0 then 0 else FailuresAtEach(steps, n - 1) + CheapFailures(steps, Some(n - 1))
  }

  lemma PrefixGrows(steps: seq<StepReplay>, n: nat)
    requires n < |steps|
    ensures CheapTotal(steps[..n + 1], None) - ActualTotal(steps[..n + 1])
         == CheapTotal(steps[..n], None) - ActualTotal(steps[..n]) + (steps[n].cheap.costUsd - steps[n].actualCost)
    ensures CheapFailures(steps[..n + 1], None) == CheapFailures(steps[..n], None) + if steps[n].cheap.wouldSucceed then 0 else 1
  {
    assert steps[..n + 1] == steps[..n] + [steps[n]];
    TotalsSnoc(steps[..n], steps[n], None);
  }

  lemma {:induction false} DifferencesTelescope(steps: seq<StepReplay>, n: nat)
    requires Numbered(steps) && n <= |steps|
    ensures DifferencesAtEach(steps, n) == CheapTotal(steps[..n], None) - ActualTotal(steps[..n])
    ensures FailuresAtEach(steps, n) == CheapFailures(steps[..n], None)
  {
    if n > 0 {
      DifferencesTelescope(steps, n - 1);
      PrefixGrows(steps, n - 1);
      CheapAtOne(steps, n - 1);
    }
  }

  lemma ReplayIsNumbered(f: Fixture)
    requires ValidateFixture(f).Ok? && Collect(StepReplays(f)).Ok?
    ensures var steps := Collect(StepReplays(f)).value; |steps| == |f.steps| && Numbered(steps)
  {
    ValidationDecides(f);
    CollectDecides(StepReplays(f));
    var steps := Collect(StepReplays(f)).value;
    assert forall i | 0 <= i < |steps| :: ReplayStep(f.steps[i], f.catalog) == Ok(steps[i]);
  }

  /** On a validated fixture the per-step cheap replays add up to the cheap-everywhere replay, in cost and in failures. */
  lemma CheapReplaysTelescope(f: Fixture)
    requires ValidateFixture(f).Ok? && Replayed(f, None).Ok?
    ensures var steps := Replayed(f, None).value.steps;
      && |steps| == |f.steps|
      && DifferencesAtEach(steps, |steps|) == Replayed(f, None).value.cheapAtK - Replayed(f, None).value.actual
      && FailuresAtEach(steps, |steps|) == Replayed(f, None).value.cheapAtKFailed
  {
    ReplayIsNumbered(f);
    var steps := Collect(StepReplays(f)).value;
    DifferencesTelescope(steps, |steps|);
    assert steps[..|steps|] == steps;
  }

  /** Each term of that sum is a replay of the same steps, and is what its own step saves or costs. */
  lemma CheapReplayAtStep(f: Fixture, k: nat)
    requires ValidateFixture(f).Ok? && Replayed(f, None).Ok?
    ensures Replayed(f, Some(k)).Ok? && Replayed(f, Some(k)).value.steps == Replayed(f, None).value.steps
    ensures var r, steps := Replayed(f, Some(k)).value, Replayed(f, None).value.steps;
      r.cheapAtK - r.actual == if k < |steps| then steps[k].cheap.costUsd - steps[k].actualCost else 0.0
  {
    ReplayIsNumbered(f);
    CheapAtOne(Collect(StepReplays(f)).value, k);
  }
}
