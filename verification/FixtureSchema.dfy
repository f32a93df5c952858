/** Eval trace fixtures: tiers, the frozen catalog and full fixture validation. */
module FixtureSchema {
  import opened Wrappers
  import opened Sorting

  /** A tier, or a value that is none although the code holds it where a tier belongs. */
  datatype Tier = ZeroTier | EconomicalCloud | FrontierCloud | NotATier(name: string)

  /** Position in the capability order, -1 for what is not in it. */
  function TierRank(t: Tier): int {
    match t
    case ZeroTier => 0
    case EconomicalCloud => 1
    case FrontierCloud => 2
    case NotATier(_) => -1
  }

  predicate TierAtLeast(a: Tier, b: Tier) { TierRank(a) >= TierRank(b) }

  datatype CatalogModel = CatalogModel(modelId: string, tier: Tier, costPerMillionUsd: real)

  datatype FrozenCatalog = FrozenCatalog(catalogId: string, checkpointDate: string, models: seq<CatalogModel>)

  /** First catalog entry with the id. */
  function LookupModel(models: seq<CatalogModel>, modelId: string): (r: Option<CatalogModel>)
    ensures r.Some? ==> r.value in models && r.value.modelId == modelId
    ensures r.None? ==> forall m | m in models :: m.modelId != modelId
  {
    if |models| == 0 then None
    else if models[0].modelId == modelId then Some(models[0])
    else LookupModel(models[1..], modelId)
  }

  /** The same lookup where the id may be undefined, which no entry has. */
  function LookupId(models: seq<CatalogModel>, modelId: Option<string>): Option<CatalogModel> {
    if modelId.None? then None else LookupModel(models, modelId.value)
  }

  /** Left fold that keeps the earlier model on equal prices. */
  function Cheapest(best: CatalogModel, rest: seq<CatalogModel>): (r: CatalogModel)
    ensures r == best || r in rest
    ensures r.costPerMillionUsd <= best.costPerMillionUsd
    ensures forall m | m in rest :: r.costPerMillionUsd <= m.costPerMillionUsd
    decreases |rest|
  {
    if |rest| == 0 then best
    else Cheapest(if rest[0].costPerMillionUsd < best.costPerMillionUsd then rest[0] else best, rest[1..])
  }

  function CheapestModelForTier(catalog: FrozenCatalog, tier: Tier): Option<CatalogModel> {
    var candidates := Filter(catalog.models, (m: CatalogModel) => m.tier == tier);
    if |candidates| == 0 then None else Some(Cheapest(candidates[0], candidates[1..]))
  }

  lemma CheapestIsLeast(catalog: FrozenCatalog, tier: Tier)
    ensures var r := CheapestModelForTier(catalog, tier);
      && (r.None? <==> forall m | m in catalog.models :: m.tier != tier)
      && (r.Some? ==> r.value in catalog.models && r.value.tier == tier)
      && (r.Some? ==> forall m | m in catalog.models && m.tier == tier ::
            r.value.costPerMillionUsd <= m.costPerMillionUsd)
  {
    var p := (m: CatalogModel) => m.tier == tier;
    FilterMembers(catalog.models, p);
    var candidates := Filter(catalog.models, p);
    if |candidates| > 0 {
      assert candidates[0] in candidates;
      assert candidates == [candidates[0]] + candidates[1..];
    }
  }

  function StepCost(m: CatalogModel, tokens: nat): real {
    (tokens as real / 1_000_000.0) * m.costPerMillionUsd
  }

  /** Estimated price of a prefix on a catalog model; None where the lookup throws. */
  function EstimateStepCostUsd(catalog: FrozenCatalog, modelId: string, tokens: nat): Option<real> {
    match LookupModel(catalog.models, modelId)
    case Some(m) => Some(StepCost(m, tokens))
    case None => None
  }

  datatype RoutingDecision = RoutingDecision(tier: Tier, modelId: string, costUsd: real, reasonCode: string)

  datatype StepOutcome = StepOutcome(success: bool, minTier: Tier, minModelId: Option<string>, verifiedToolProgression: bool)

  datatype Scenario = CheapAtStepK | HindsightOptimal

  datatype Counterfactual = Counterfactual(
    scenario: Scenario, tier: Tier, modelId: string, wouldSucceed: bool, costUsd: real)

  datatype TraceStep = TraceStep(
    stepIndex: int, turnType: string, prefixHash: string, prefixTokenEstimate: nat,
    actual: RoutingDecision, outcome: StepOutcome, counterfactuals: seq<Counterfactual>)

  datatype TraceOutcome = TraceOutcome(taskSuccess: bool, finalTurnIndex: int)

  datatype Fixture = Fixture(
    fixtureId: string, catalog: FrozenCatalog, sessionIdHash: string, steps: seq<TraceStep>, outcome: TraceOutcome)

  datatype FixtureError =
    | NotContiguous(expected: nat, got: int)
    | UnknownModel(modelId: Option<string>)
    | SuccessBelowMinTier(stepIndex: int)
    | MinModelTierMismatch(stepIndex: int)
    | NoModelForTier(tier: Tier)

  /** First position whose step index is not its own position. */
  function FirstGap(steps: seq<TraceStep>, from: nat): Option<nat>
    requires from <= |steps|
    decreases |steps| - from
  {
    if from == |steps| then None
    else if steps[from].stepIndex != from then Some(from)
    else FirstGap(steps, from + 1)
  }

  /** The cross-field checks of one step, in the order they throw. */
  function StepError(catalog: FrozenCatalog, step: TraceStep): Option<FixtureError> {
    var minModel := LookupId(catalog.models, step.outcome.minModelId);
    if LookupModel(catalog.models, step.actual.modelId).None? then Some(UnknownModel(Some(step.actual.modelId)))
    else if minModel.None? then Some(UnknownModel(step.outcome.minModelId))
    else if !TierAtLeast(step.actual.tier, step.outcome.minTier) && step.outcome.success then
      Some(SuccessBelowMinTier(step.stepIndex))
    else if minModel.value.tier != step.outcome.minTier then Some(MinModelTierMismatch(step.stepIndex))
    else None
  }

  function FirstStepError(catalog: FrozenCatalog, steps: seq<TraceStep>): Option<FixtureError> {
    if |steps| == 0 then None
    else if StepError(catalog, steps[0]).Some? then StepError(catalog, steps[0])
    else FirstStepError(catalog, steps[1..])
  }

  function ValidateFixture(f: Fixture): Result<Fixture, FixtureError> {
    match FirstGap(f.steps, 0)
    case Some(i) => GapFound(f.steps, 0); Err(NotContiguous(i, f.steps[i].stepIndex))
    case None =>
      match FirstStepError(f.catalog, f.steps)
      case Some(e) => Err(e)
      case None => Ok(f)
  }

  lemma {:induction false} GapFound(steps: seq<TraceStep>, from: nat)
    requires from <= |steps|
    ensures var r := FirstGap(steps, from);
      if r.Some? then from <= r.value < |steps| && steps[r.value].stepIndex != r.value
      else forall i | from <= i < |steps| :: steps[i].stepIndex == i
    decreases |steps| - from
  {
    if from < |steps| && steps[from].stepIndex == from {
      GapFound(steps, from + 1);
    }
  }

  /** What a validated fixture guarantees at every step. */
  ghost predicate ValidStep(catalog: FrozenCatalog, step: TraceStep) {
    var minModel := LookupId(catalog.models, step.outcome.minModelId);
    && LookupModel(catalog.models, step.actual.modelId).Some?
    && minModel.Some? && minModel.value.tier == step.outcome.minTier
    && (step.outcome.success ==> TierAtLeast(step.actual.tier, step.outcome.minTier))
  }

  ghost predicate ValidFixture(f: Fixture) {
    && (forall i | 0 <= i < |f.steps| :: f.steps[i].stepIndex == i)
    && (forall s | s in f.steps :: ValidStep(f.catalog, s))
  }

  lemma {:induction false} StepErrorsDecide(catalog: FrozenCatalog, steps: seq<TraceStep>)
    ensures FirstStepError(catalog, steps).None? <==> forall s | s in steps :: ValidStep(catalog, s)
  {
    if |steps| > 0 {
      StepErrorsDecide(catalog, steps[1..]);
      assert steps == [steps[0]] + steps[1..];
      assert StepError(catalog, steps[0]).None? <==> ValidStep(catalog, steps[0]);
    }
  }

  /** Validation accepts exactly the valid fixtures, and returns them unchanged. */
  lemma ValidationDecides(f: Fixture)
    ensures ValidateFixture(f).Ok? <==> ValidFixture(f)
    ensures ValidateFixture(f).Ok? ==> ValidateFixture(f).value == f
  {
    GapFound(f.steps, 0);
    StepErrorsDecide(f.catalog, f.steps);
  }
}
