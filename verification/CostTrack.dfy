/** The harness cost track: rounded per-fixture figures and their aggregate. */
module CostTrack {
  import opened Wrappers
  import opened FixtureSchema
  import opened Replay

  const UNITS := 1_000_000.0

  /** Rounds half up to whole millionths. */
  function Units(x: real): int { (x * UNITS + 0.5).Floor }

  function InUsd(units: int): real { units as real / UNITS }

  function RoundUsd(x: real): real { InUsd(Units(x)) }

  datatype FixtureCost = FixtureCost(
    actual: real, hindsight: real, frontierBaseline: real, regret: real, savingsRatio: real, savingsVsFrontier: real)

  datatype AggregateCost = AggregateCost(actual: real, hindsight: real, regret: real)

  /** Every step priced on the cheapest frontier model; None where the catalog has none. */
  function FrontierBaseline(catalog: FrozenCatalog, steps: seq<TraceStep>): Option<real> {
    if |steps| == 0 then Some(0.0)
    else
      match FrontierBaseline(catalog, steps[..|steps| - 1])
      case None => None
      case Some(total) =>
        match CheapestModelForTier(catalog, FrontierCloud)
        case None => None
        case Some(m) =>
          match EstimateStepCostUsd(catalog, m.modelId, steps[|steps| - 1].prefixTokenEstimate)
          case None => None
          case Some(cost) => Some(total + cost)
  }

  lemma {:induction false} BaselineStops(catalog: FrozenCatalog, steps: seq<TraceStep>, n: nat)
    requires n <= |steps| && FrontierBaseline(catalog, steps[..n]).None?
    ensures FrontierBaseline(catalog, steps).None?
    decreases |steps|
  {
    if n < |steps| {
      assert steps[..|steps| - 1][..n] == steps[..n];
      BaselineStops(catalog, steps[..|steps| - 1], n);
    } else {
      assert steps[..n] == steps;
    }
  }

  method FrontierBaselineCost(f: Fixture) returns (total: Option<real>)
    ensures total == FrontierBaseline(f.catalog, f.steps)
  {
    var sum := 0.0;
    var i := 0;
    while i < |f.steps|
      invariant 0 <= i <= |f.steps|
      invariant FrontierBaseline(f.catalog, f.steps[..i]) == Some(sum)
    {
      assert f.steps[..i + 1][..i] == f.steps[..i];
      var m := CheapestModelForTier(f.catalog, FrontierCloud);
      if m.None? {
        BaselineStops(f.catalog, f.steps, i + 1);
        return None;
      }
      var cost := EstimateStepCostUsd(f.catalog, m.value.modelId, f.steps[i].prefixTokenEstimate);
      if cost.None? {
        BaselineStops(f.catalog, f.steps, i + 1);
        return None;
      }
      sum := sum + cost.value;
      i := i + 1;
    }
    assert f.steps[..i] == f.steps;
    return Some(sum);
  }

  function CostOf(t: Totals, frontier: real): FixtureCost {
    FixtureCost(RoundUsd(t.actual), RoundUsd(t.hindsight), RoundUsd(frontier), RoundUsd(t.regret),
      if t.actual > 0.0 then RoundUsd(t.hindsight / t.actual) else 1.0,
      if frontier > 0.0 then RoundUsd((frontier - t.actual) / frontier) else 0.0)
  }

  /** None where the replay or the baseline throws. */
  method ScoreCostTrack(f: Fixture) returns (r: Option<FixtureCost>)
    ensures var t, frontier := Replayed(f, None), FrontierBaseline(f.catalog, f.steps);
      r == if t.Ok? && frontier.Some? then Some(CostOf(t.value, frontier.value)) else None
    ensures r.Some? ==> FiguresOf(r.value, f)
  {
    var replay := ReplayCounterfactualTrace(f, None);
    if replay.Err? {
      return None;
    }
    var frontier := FrontierBaselineCost(f);
    if frontier.None? {
      return None;
    }
    return Some(CostOf(replay.value, frontier.value));
  }

  function SumBy(results: seq<FixtureCost>, field: FixtureCost -> real): real {
    if |results| == 0 then 0.0 else SumBy(results[..|results| - 1], field) + field(results[|results| - 1])
  }

  function ActualField(): FixtureCost -> real { (c: FixtureCost) => c.actual }

  function HindsightField(): FixtureCost -> real { (c: FixtureCost) => c.hindsight }

  function RegretField(): FixtureCost -> real { (c: FixtureCost) => c.regret }

  function AggregateOf(results: seq<FixtureCost>): AggregateCost {
    AggregateCost(
      RoundUsd(SumBy(results, ActualField())), RoundUsd(SumBy(results, HindsightField())), RoundUsd(SumBy(results, RegretField())))
  }

  method AggregateHarnessMetrics(results: seq<FixtureCost>) returns (a: AggregateCost)
    ensures a == AggregateOf(results)
  {
    var totalActual, totalHindsight, totalRegret := 0.0, 0.0, 0.0;
    var i := 0;
    while i < |results|
      invariant 0 <= i <= |results|
      invariant totalActual == SumBy(results[..i], ActualField())
      invariant totalHindsight == SumBy(results[..i], HindsightField())
      invariant totalRegret == SumBy(results[..i], RegretField())
    {
      assert results[..i + 1][..i] == results[..i];
      totalActual := totalActual + results[i].actual;
      totalHindsight := totalHindsight + results[i].hindsight;
      totalRegret := totalRegret + results[i].regret;
      i := i + 1;
    }
    assert results[..i] == results;
    return AggregateCost(RoundUsd(totalActual), RoundUsd(totalHindsight), RoundUsd(totalRegret));
  }

  // ---------------------------------------------------------------------------
  // Accumulated rounding
  // ---------------------------------------------------------------------------

  /** Whole millionths are already rounded. */
  lemma RoundKeepsUnits(n: int)
    ensures RoundUsd(InUsd(n)) == InUsd(n)
  {
    assert InUsd(n) * UNITS == n as real;
    assert (n as real + 0.5).Floor == n;
  }

  /** One fixture's rounded regret misses the difference of its rounded totals by at most one unit. */
  lemma RegretWithinOneUnit(actual: real, hindsight: real)
    ensures -1 <= Units(actual - hindsight) - (Units(actual) - Units(hindsight)) <= 1
  {
    assert (actual - hindsight) * UNITS == actual * UNITS - hindsight * UNITS;
  }

  /** The figures are those of this fixture's replay and baseline. */
  ghost predicate FiguresOf(c: FixtureCost, f: Fixture) {
    var t, frontier := Replayed(f, None), FrontierBaseline(f.catalog, f.steps);
    t.Ok? && frontier.Some? && c == CostOf(t.value, frontier.value)
  }

  /** The figures are those of some fixture. */
  ghost predicate Scored(c: FixtureCost) { exists f :: FiguresOf(c, f) }

  /** A fixture's figures in whole units, apart by at most one. */
  ghost predicate InUnits(c: FixtureCost, actual: int, hindsight: int, regret: int) {
    c.actual == InUsd(actual) && c.hindsight == InUsd(hindsight) && c.regret == InUsd(regret) && -1 <= regret - (actual - hindsight) <= 1
  }

  lemma ScoredInUnits(c: FixtureCost) returns (actual: int, hindsight: int, regret: int)
    requires Scored(c)
    ensures InUnits(c, actual, hindsight, regret)
  {
    var f :| FiguresOf(c, f);
    var t := Replayed(f, None).value;
    RegretWithinOneUnit(t.actual, t.hindsight);
    actual, hindsight, regret := Units(t.actual), Units(t.hindsight), Units(t.regret);
  }

  /** Sums of rounded figures stay whole, and drift apart by at most one unit a fixture. */
  lemma {:induction false} SumsInUnits(results: seq<FixtureCost>) returns (actual: int, hindsight: int, regret: int)
    requires forall c | c in results :: Scored(c)
    ensures SumBy(results, ActualField()) == InUsd(actual)
    ensures SumBy(results, HindsightField()) == InUsd(hindsight)
    ensures SumBy(results, RegretField()) == InUsd(regret)
    ensures -|results| <= regret - (actual - hindsight) <= |results|
  {
    if |results| == 0 {
      actual, hindsight, regret := 0, 0, 0;
    } else {
      var c := results[|results| - 1];
      var a, h, r := SumsInUnits(results[..|results| - 1]);
      var ca, ch, cr := ScoredInUnits(c);
      actual, hindsight, regret := a + ca, h + ch, r + cr;
    }
  }

  ghost function Drift(results: seq<FixtureCost>): real {
    AggregateOf(results).regret - (AggregateOf(results).actual - AggregateOf(results).hindsight)
  }

  /** The aggregate's rounded regret is within one millionth a fixture of rounded actual minus rounded hindsight. */
  lemma AggregateDriftBound(results: seq<FixtureCost>)
    requires forall c | c in results :: Scored(c)
    ensures -(|results| as real) / UNITS <= Drift(results) <= |results| as real / UNITS
  {
    var actual, hindsight, regret := SumsInUnits(results);
    RoundKeepsUnits(actual);
    RoundKeepsUnits(hindsight);
    RoundKeepsUnits(regret);
    assert Drift(results) == InUsd(regret - (actual - hindsight));
  }

  // The bound is reached: half a unit actual against 0.4 of a unit in hindsight.

  const WORST_CATALOG := FrozenCatalog("worst", "2026-07-01",
    [CatalogModel("local", ZeroTier, 0.4), CatalogModel("frontier", FrontierCloud, 3.0)])

  const WORST_STEP := TraceStep(0, "main_loop", "prefix-0", 1, RoutingDecision(FrontierCloud, "frontier", 0.0000005, "pinned"),
    StepOutcome(true, ZeroTier, Some("local"), true), [])

  const WORST := Fixture("worst", WORST_CATALOG, "session-0", [WORST_STEP], TraceOutcome(true, 0))

  lemma WorstModels()
    ensures LookupModel(WORST_CATALOG.models, "local") == Some(CatalogModel("local", ZeroTier, 0.4))
    ensures LookupModel(WORST_CATALOG.models, "frontier") == Some(CatalogModel("frontier", FrontierCloud, 3.0))
  {
    assert |"local"| == 5 && |"frontier"| == 8;
    assert WORST_CATALOG.models[1..][0] == WORST_CATALOG.models[1];
  }

  lemma WorstIsValid()
    ensures ValidateFixture(WORST) == Ok(WORST)
  {
    WorstModels();
    assert forall s | s in WORST.steps :: s == WORST_STEP;
    ValidationDecides(WORST);
  }

  /** Both tiers the replay and the baseline look for have a model. */
  lemma WorstTiers()
    ensures CheapestModelForTier(WORST_CATALOG, ZeroTier).Some? && CheapestModelForTier(WORST_CATALOG, FrontierCloud).Some?
  {
    var ms := WORST_CATALOG.models;
    CheapestIsLeast(WORST_CATALOG, ZeroTier);
    CheapestIsLeast(WORST_CATALOG, FrontierCloud);
    assert ms[0] in ms && ms[1] in ms && ms[0].tier == ZeroTier && ms[1].tier == FrontierCloud;
  }

  lemma WorstStepReplays()
    ensures ReplayStep(WORST_STEP, WORST_CATALOG).Ok?
    ensures ReplayStep(WORST_STEP, WORST_CATALOG).value.actualCost == 0.0000005
    ensures ReplayStep(WORST_STEP, WORST_CATALOG).value.hindsightCost == 0.0000004
  {
    WorstModels();
    WorstTiers();
    CheapestIsLeast(WORST_CATALOG, ZeroTier);
    LookupFinds(WORST_CATALOG.models, CheapestModelForTier(WORST_CATALOG, ZeroTier).value);
    assert StepCost(CatalogModel("local", ZeroTier, 0.4), 1) == 0.0000004;
  }

  lemma WorstReplays()
    ensures var t := Replayed(WORST, None);
      t.Ok? && t.value.actual == 0.0000005 && t.value.hindsight == 0.0000004 && t.value.regret == 0.0000001
  {
    WorstStepReplays();
    var results := StepReplays(WORST);
    CollectDecides(results);
    var steps := Collect(results).value;
    assert results[0] == Ok(steps[0]) && steps == [steps[0]];
    TotalsSnoc([], steps[0], None);
    assert [] + [steps[0]] == steps;
  }

  lemma WorstBaseline()
    ensures FrontierBaseline(WORST.catalog, WORST.steps).Some?
  {
    WorstTiers();
    CheapestIsLeast(WORST_CATALOG, FrontierCloud);
    LookupFinds(WORST_CATALOG.models, CheapestModelForTier(WORST_CATALOG, FrontierCloud).value);
    assert WORST.steps[..0] == [];
  }

  /** A validated fixture whose rounded figures are one, zero and zero units. */
  lemma WorstFigures() returns (c: FixtureCost)
    ensures ValidateFixture(WORST).Ok? && FiguresOf(c, WORST)
    ensures c.actual == InUsd(1) && c.hindsight == InUsd(0) && c.regret == InUsd(0)
  {
    WorstIsValid();
    WorstReplays();
    WorstBaseline();
    c := CostOf(Replayed(WORST, None).value, FrontierBaseline(WORST.catalog, WORST.steps).value);
    assert Units(0.0000005) == 1 && Units(0.0000004) == 0 && Units(0.0000001) == 0;
  }

  function Repeated<T>(x: T, n: nat): (s: seq<T>)
    ensures |s| == n && forall i | 0 <= i < n :: s[i] == x
  {
    seq(n, i => x)
  }

  lemma {:induction false} WorstSums(c: FixtureCost, n: nat)
    requires c.actual == InUsd(1) && c.hindsight == InUsd(0) && c.regret == InUsd(0)
    ensures var s := Repeated(c, n);
      SumBy(s, ActualField()) == InUsd(n) && SumBy(s, HindsightField()) == InUsd(0) && SumBy(s, RegretField()) == InUsd(0)
  {
    if n > 0 {
      WorstSums(c, n - 1);
      var s := Repeated(c, n);
      assert s[..n - 1] == Repeated(c, n - 1);
    }
  }

  /** The figures are those of validated fixtures, one for one. */
  ghost predicate FiguresOfAll(results: seq<FixtureCost>, fixtures: seq<Fixture>) {
    |results| == |fixtures| && forall i | 0 <= i < |results| :: ValidateFixture(fixtures[i]).Ok? && FiguresOf(results[i], fixtures[i])
  }

  /** For every number of validated fixtures some aggregate reaches the bound. */
  lemma DriftBoundIsTight(n: nat)
    ensures exists results, fixtures :: |results| == n && FiguresOfAll(results, fixtures) && Drift(results) == -(n as real) / UNITS
  {
    var c := WorstFigures();
    WorstSums(c, n);
    RoundKeepsUnits(n);
    RoundKeepsUnits(0);
    var results := Repeated(c, n);
    assert FiguresOfAll(results, Repeated(WORST, n));
    assert Drift(results) == -(n as real) / UNITS;
  }
}
