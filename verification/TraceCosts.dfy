/** What a replay and the cost track charge, said by catalog entries, prices and sums over the trace. */
module TraceCosts {
  import opened Wrappers
  import opened Sorting
  import opened MappedLists
  import opened FixtureSchema
  import opened Replay
  import opened CostTrack

  // ---------------------------------------------------------------------------
  // Entries and prices
  // ---------------------------------------------------------------------------

  /** The first catalog entry with the id. */
  ghost predicate EntryFor(models: seq<CatalogModel>, id: string, m: CatalogModel) {
    exists i | 0 <= i < |models| :: models[i] == m && m.modelId == id && forall j | 0 <= j < i :: models[j].modelId != id
  }

  /** The first of the tier's least-priced entries. */
  ghost predicate LeastOf(models: seq<CatalogModel>, tier: Tier, m: CatalogModel) {
    exists i | 0 <= i < |models| :: models[i] == m && m.tier == tier && LeastAt(models, tier, i)
  }

  ghost predicate LeastAt(models: seq<CatalogModel>, tier: Tier, i: nat)
    requires i < |models|
  {
    forall j | 0 <= j < |models| && j != i && models[j].tier == tier ::
      models[i].costPerMillionUsd < models[j].costPerMillionUsd || (i < j && models[i].costPerMillionUsd == models[j].costPerMillionUsd)
  }

  /** So many tokens on this entry, at its price for a million. */
  ghost predicate PriceIs(cost: real, tokens: nat, m: CatalogModel) { cost * 1_000_000.0 == tokens as real * m.costPerMillionUsd }

  lemma EntryComesLater(models: seq<CatalogModel>, id: string, m: CatalogModel)
    requires |models| > 0 && models[0].modelId != id && EntryFor(models, id, m)
    ensures EntryFor(models[1..], id, m)
  {
    var i :| 0 <= i < |models| && models[i] == m && m.modelId == id && forall j | 0 <= j < i :: models[j].modelId != id;
    assert models[1..][i - 1] == m && forall j | 0 <= j < i - 1 :: models[1..][j] == models[j + 1];
  }

  lemma EntryStays(models: seq<CatalogModel>, id: string, m: CatalogModel)
    requires |models| > 0 && models[0].modelId != id && EntryFor(models[1..], id, m)
    ensures EntryFor(models, id, m)
  {
    var i :| 0 <= i < |models[1..]| && models[1..][i] == m && m.modelId == id && forall j | 0 <= j < i :: models[1..][j].modelId != id;
    assert models[i + 1] == m && forall j | 0 < j < i + 1 :: models[j] == models[1..][j - 1];
  }

  lemma {:induction false} LookupIff(models: seq<CatalogModel>, id: string, m: CatalogModel)
    ensures LookupModel(models, id) == Some(m) <==> EntryFor(models, id, m)
  {
    if |models| > 0 && models[0].modelId != id {
      LookupIff(models[1..], id, m);
      if EntryFor(models, id, m) {
        EntryComesLater(models, id, m);
      } else if EntryFor(models[1..], id, m) {
        EntryStays(models, id, m);
      }
    }
  }

  lemma {:induction false} CheapestSnoc(best: CatalogModel, rest: seq<CatalogModel>, m: CatalogModel)
    ensures Cheapest(best, rest + [m]) ==
      if m.costPerMillionUsd < Cheapest(best, rest).costPerMillionUsd then m else Cheapest(best, rest)
    decreases |rest|
  {
    if |rest| == 0 {
      assert rest + [m] == [m] && [m][1..] == [];
    } else {
      assert (rest + [m])[1..] == rest[1..] + [m];
      CheapestSnoc(if rest[0].costPerMillionUsd < best.costPerMillionUsd then rest[0] else best, rest[1..], m);
    }
  }

  function CheapestOf(models: seq<CatalogModel>, tier: Tier): Option<CatalogModel> {
    CheapestModelForTier(FrozenCatalog("", "", models), tier)
  }

  lemma CheapestOfSnoc(models: seq<CatalogModel>, m: CatalogModel, tier: Tier)
    ensures var before := CheapestOf(models, tier);
      CheapestOf(models + [m], tier) ==
      if m.tier != tier then before
      else if before.None? || m.costPerMillionUsd < before.value.costPerMillionUsd then Some(m) else before
  {
    var p := (x: CatalogModel) => x.tier == tier;
    FilterSnoc(models, m, p);
    CheapestOfMore(Filter(models, p), m);
    assert Filter(models, p) + [] == Filter(models, p);
  }

  lemma CheapestOfMore(candidates: seq<CatalogModel>, m: CatalogModel)
    ensures Cheapest((candidates + [m])[0], (candidates + [m])[1..]) ==
      if |candidates| == 0 then m
      else
        var before := Cheapest(candidates[0], candidates[1..]);
        if m.costPerMillionUsd < before.costPerMillionUsd then m else before
  {
    if |candidates| > 0 {
      CheapestSnoc(candidates[0], candidates[1..], m);
      assert (candidates + [m])[1..] == candidates[1..] + [m];
    } else {
      assert candidates + [m] == [m];
    }
  }

  lemma {:induction false} CheapestIff(models: seq<CatalogModel>, tier: Tier)
    ensures CheapestOf(models, tier).Some? ==> LeastOf(models, tier, CheapestOf(models, tier).value)
    ensures CheapestOf(models, tier).None? <==> forall m | m in models :: m.tier != tier
  {
    if |models| > 0 {
      var n := |models| - 1;
      var init, m := models[..n], models[n];
      assert models == init + [m];
      CheapestIff(init, tier);
      CheapestOfSnoc(init, m, tier);
      LeastGrows(init, m, tier, CheapestOf(init, tier));
    }
  }

  lemma LeastGrows(init: seq<CatalogModel>, m: CatalogModel, tier: Tier, before: Option<CatalogModel>)
    requires before.Some? ==> LeastOf(init, tier, before.value)
    requires before.None? ==> forall x | x in init :: x.tier != tier
    ensures m.tier == tier && (before.None? || m.costPerMillionUsd < before.value.costPerMillionUsd) ==> LeastOf(init + [m], tier, m)
    ensures before.Some? && !(m.tier == tier && m.costPerMillionUsd < before.value.costPerMillionUsd) ==>
      LeastOf(init + [m], tier, before.value)
  {
    var models := init + [m];
    assert forall j | 0 <= j < |init| :: models[j] == init[j] && init[j] in init;
    assert models[|init|] == m;
    if before.Some? {
      var i :| 0 <= i < |init| && init[i] == before.value && before.value.tier == tier && LeastAt(init, tier, i);
      if m.tier == tier && m.costPerMillionUsd < before.value.costPerMillionUsd {
        assert LeastAt(models, tier, |init|);
      } else {
        assert LeastAt(models, tier, i);
      }
    } else if m.tier == tier {
      assert LeastAt(models, tier, |init|);
    }
  }

  lemma PriceOfStep(m: CatalogModel, tokens: nat)
    ensures PriceIs(StepCost(m, tokens), tokens, m)
  {
    MillionthTimesMillion(tokens as real, m.costPerMillionUsd);
  }

  lemma MillionthTimesMillion(tokens: real, price: real)
    ensures (tokens / 1_000_000.0) * price * 1_000_000.0 == tokens * price
  {
    var t := tokens / 1_000_000.0;
    assert t * price * 1_000_000.0 == (t * 1_000_000.0) * price;
  }

  // ---------------------------------------------------------------------------
  // One step
  // ---------------------------------------------------------------------------

  ghost predicate RecordsCheap(step: TraceStep) { exists c | c in step.counterfactuals :: c.scenario == CheapAtStepK }

  /** The first recorded cheap scenario. */
  ghost predicate FirstRecorded(cs: seq<Counterfactual>, c: Counterfactual) {
    exists i | 0 <= i < |cs| :: cs[i] == c && c.scenario == CheapAtStepK && forall j | 0 <= j < i :: cs[j].scenario != CheapAtStepK
  }

  /** The tier tried instead: economical where frontier was needed, else the zero tier. */
  ghost predicate TriedTier(step: TraceStep, tier: Tier) {
    tier == if step.outcome.minTier == FrontierCloud then EconomicalCloud else ZeroTier
  }

  /** A scenario derived from the tried tier's least-priced model; it succeeds where nothing above the zero tier was needed. */
  ghost predicate Derived(c: Counterfactual, step: TraceStep, models: seq<CatalogModel>) {
    && c.scenario == CheapAtStepK && TriedTier(step, c.tier)
    && (exists m: CatalogModel, entry ::
          LeastOf(models, c.tier, m) && m.modelId == c.modelId && EntryFor(models, m.modelId, entry)
          && PriceIs(c.costUsd, step.prefixTokenEstimate, entry))
    && (c.wouldSucceed <==> step.outcome.minTier == ZeroTier || step.outcome.minTier.NotATier?)
  }

  ghost predicate CheapIs(c: Counterfactual, step: TraceStep, models: seq<CatalogModel>) {
    if RecordsCheap(step) then FirstRecorded(step.counterfactuals, c) else Derived(c, step, models)
  }

  /** The step's own figures, the price of its least model in hindsight, and its cheap scenario. */
  ghost predicate StepIs(s: StepReplay, step: TraceStep, models: seq<CatalogModel>) {
    && s.stepIndex == step.stepIndex && s.prefixHash == step.prefixHash && s.verified == step.outcome.verifiedToolProgression
    && s.actualTier == step.actual.tier && s.actualCost == step.actual.costUsd && s.hindsightTier == step.outcome.minTier
    && (exists m: CatalogModel ::
          EntryFor(models, m.modelId, m) && step.outcome.minModelId == Some(m.modelId)
          && PriceIs(s.hindsightCost, step.prefixTokenEstimate, m))
    && s.regret == s.actualCost - s.hindsightCost
    && CheapIs(s.cheap, step, models)
  }

  lemma RecordedStays(cs: seq<Counterfactual>, c: Counterfactual)
    requires |cs| > 0 && cs[0].scenario != CheapAtStepK && FirstRecorded(cs[1..], c)
    ensures FirstRecorded(cs, c)
  {
    var i :| 0 <= i < |cs[1..]| && cs[1..][i] == c && c.scenario == CheapAtStepK
      && forall j | 0 <= j < i :: cs[1..][j].scenario != CheapAtStepK;
    assert cs[i + 1] == c && forall j | 0 < j < i + 1 :: cs[j] == cs[1..][j - 1];
  }

  lemma {:induction false} FirstCheapIs(cs: seq<Counterfactual>)
    ensures FirstCheap(cs).None? <==> forall c | c in cs :: c.scenario != CheapAtStepK
    ensures FirstCheap(cs).Some? ==> FirstRecorded(cs, FirstCheap(cs).value)
  {
    if |cs| > 0 && cs[0].scenario != CheapAtStepK {
      FirstCheapIs(cs[1..]);
      assert cs == [cs[0]] + cs[1..];
      if FirstCheap(cs).Some? {
        RecordedStays(cs, FirstCheap(cs).value);
      }
    }
  }

  lemma CheapestInCatalog(catalog: FrozenCatalog, tier: Tier)
    ensures CheapestModelForTier(catalog, tier).Some? ==> LeastOf(catalog.models, tier, CheapestModelForTier(catalog, tier).value)
    ensures CheapestModelForTier(catalog, tier).None? <==> forall m | m in catalog.models :: m.tier != tier
  {
    CheapestIff(catalog.models, tier);
  }

  lemma ResolvedCheapIs(step: TraceStep, catalog: FrozenCatalog, c: Counterfactual)
    requires ResolveCheapCounterfactual(step, catalog) == Ok(c)
    ensures CheapIs(c, step, catalog.models)
  {
    FirstCheapIs(step.counterfactuals);
    if !RecordsCheap(step) {
      var m := CheapestModelForTier(catalog, CheapTier(step)).value;
      CheapestInCatalog(catalog, CheapTier(step));
      var entry := LookupModel(catalog.models, m.modelId).value;
      LookupIff(catalog.models, m.modelId, entry);
      PriceOfStep(entry, step.prefixTokenEstimate);
      assert Derived(c, step, catalog.models);
    }
  }

  /** What replaying one step gives. */
  lemma ReplayedStepIs(step: TraceStep, catalog: FrozenCatalog, s: StepReplay)
    requires ReplayStep(step, catalog) == Ok(s)
    ensures StepIs(s, step, catalog.models)
  {
    var id := step.outcome.minModelId.value;
    var m := LookupModel(catalog.models, id).value;
    LookupIff(catalog.models, id, m);
    PriceOfStep(m, step.prefixTokenEstimate);
    ResolvedCheapIs(step, catalog, s.cheap);
  }

  /** The step names a catalog model as its least one, and has a cheap scenario or a model in the tried tier. */
  ghost predicate CanReplay(step: TraceStep, models: seq<CatalogModel>) {
    && (exists m | m in models :: step.outcome.minModelId == Some(m.modelId))
    && (RecordsCheap(step) || exists m | m in models :: TriedTier(step, m.tier))
  }

  lemma StepReplaysExactlyIf(step: TraceStep, catalog: FrozenCatalog)
    ensures ReplayStep(step, catalog).Ok? <==> CanReplay(step, catalog.models)
  {
    FirstCheapIs(step.counterfactuals);
    CheapestInCatalog(catalog, CheapTier(step));
    forall m | m in catalog.models ensures LookupModel(catalog.models, m.modelId).Some? {
      LookupFinds(catalog.models, m);
    }
  }

  // ---------------------------------------------------------------------------
  // A whole trace
  // ---------------------------------------------------------------------------

  function Sum(s: seq<real>): real { if |s| == 0 then 0.0 else Sum(s[..|s| - 1]) + s[|s| - 1] }

  function Paid(): StepReplay -> real { (s: StepReplay) => s.actualCost }

  function LeastPaid(): StepReplay -> real { (s: StepReplay) => s.hindsightCost }

  /** Cheap at every step, or at the one that is named; what was paid elsewhere. */
  function PaidCheap(k: Option<int>): StepReplay -> real {
    (s: StepReplay) => if k == None || k == Some(s.stepIndex) then s.cheap.costUsd else s.actualCost
  }

  function FailsCheap(k: Option<int>): StepReplay -> bool {
    (s: StepReplay) => (k == None || k == Some(s.stepIndex)) && !s.cheap.wouldSucceed
  }

  function IsVerified(): StepReplay -> bool { (s: StepReplay) => s.verified }

  /** Totals are sums and counts over the steps. */
  ghost predicate TotalsAre(t: Totals, k: Option<int>) {
    && t.actual == Sum(ListOf(t.steps, Paid())) && t.hindsight == Sum(ListOf(t.steps, LeastPaid()))
    && t.regret == t.actual - t.hindsight
    && t.cheapAtK == Sum(ListOf(t.steps, PaidCheap(k))) && t.cheapAtKFailed == |Filter(t.steps, FailsCheap(k))|
    && t.verifiedSteps == |Filter(t.steps, IsVerified())|
  }

  lemma SumSnoc<A>(s: seq<A>, x: A, f: A -> real)
    ensures Sum(ListOf(s + [x], f)) == Sum(ListOf(s, f)) + f(x)
  {
    ListOfSnoc(s, x, f);
    assert (ListOf(s, f) + [f(x)])[..|s|] == ListOf(s, f);
  }

  lemma TotalsStayRight(t: Totals, s: StepReplay, k: Option<int>)
    requires TotalsAre(t, k)
    ensures TotalsAre(WithStep(t, s, k), k)
  {
    SumSnoc(t.steps, s, Paid());
    SumSnoc(t.steps, s, LeastPaid());
    SumSnoc(t.steps, s, PaidCheap(k));
    FilterSnoc(t.steps, s, FailsCheap(k));
    FilterSnoc(t.steps, s, IsVerified());
  }

  lemma {:induction false} TotalsAreSums(steps: seq<StepReplay>, k: Option<int>)
    ensures TotalsAre(TotalsOf(steps, k), k)
  {
    if |steps| > 0 {
      var init, s := steps[..|steps| - 1], steps[|steps| - 1];
      assert steps == init + [s];
      TotalsAreSums(init, k);
      TotalsGrow(init, s, k);
      TotalsStayRight(TotalsOf(init, k), s, k);
    }
  }

  /** Any trace replays exactly when each step can, to one figure a step and their sums. */
  lemma TraceReplays(f: Fixture, k: Option<int>)
    ensures Replayed(f, k).Ok? <==> forall step | step in f.steps :: CanReplay(step, f.catalog.models)
    ensures Replayed(f, k).Ok? ==>
      var t := Replayed(f, k).value;
      TotalsAre(t, k) && |t.steps| == |f.steps| && forall i | 0 <= i < |f.steps| :: StepIs(t.steps[i], f.steps[i], f.catalog.models)
  {
    var results := StepReplays(f);
    CollectDecides(results);
    forall i | 0 <= i < |f.steps| ensures results[i].Ok? <==> CanReplay(f.steps[i], f.catalog.models) {
      StepReplaysExactlyIf(f.steps[i], f.catalog);
    }
    if Collect(results).Ok? {
      var steps := Collect(results).value;
      TotalsAreSums(steps, k);
      forall i | 0 <= i < |f.steps| ensures StepIs(steps[i], f.steps[i], f.catalog.models) {
        ReplayedStepIs(f.steps[i], f.catalog, steps[i]);
      }
    }
  }

  // ---------------------------------------------------------------------------
  // The cost track
  // ---------------------------------------------------------------------------

  /** The nearest whole number of millionths, halves up. */
  ghost predicate Nearest(rounded: real, exact: real) { exists units: int :: NearestUnits(rounded, exact, units) }

  ghost predicate NearestUnits(rounded: real, exact: real, units: int) {
    rounded * 1_000_000.0 == units as real && units as real - 0.5 <= exact * 1_000_000.0 < units as real + 0.5
  }

  lemma RoundsToNearest(x: real)
    ensures Nearest(RoundUsd(x), x)
  {
    assert NearestUnits(RoundUsd(x), x, Units(x));
  }

  function Tokens(steps: seq<TraceStep>): nat {
    if |steps| == 0 then 0 else Tokens(steps[..|steps| - 1]) + steps[|steps| - 1].prefixTokenEstimate
  }

  /** All tokens of the trace at the price of the cheapest frontier model. */
  ghost predicate BaselineIs(total: real, steps: seq<TraceStep>, models: seq<CatalogModel>) {
    if |steps| == 0 then total == 0.0
    else exists m: CatalogModel, entry ::
      LeastOf(models, FrontierCloud, m) && EntryFor(models, m.modelId, entry) && PriceIs(total, Tokens(steps), entry)
  }

  lemma {:induction false} BaselinePrices(catalog: FrozenCatalog, steps: seq<TraceStep>, m: CatalogModel, entry: CatalogModel)
    requires CheapestModelForTier(catalog, FrontierCloud) == Some(m) && LookupModel(catalog.models, m.modelId) == Some(entry)
    ensures FrontierBaseline(catalog, steps).Some? && PriceIs(FrontierBaseline(catalog, steps).value, Tokens(steps), entry)
  {
    if |steps| > 0 {
      var init, tokens := steps[..|steps| - 1], steps[|steps| - 1].prefixTokenEstimate;
      BaselinePrices(catalog, init, m, entry);
      PriceOfStep(entry, tokens);
      PricesAdd(FrontierBaseline(catalog, init).value, StepCost(entry, tokens), Tokens(init), tokens, entry);
    }
  }

  lemma PricesAdd(x: real, y: real, s: nat, t: nat, m: CatalogModel)
    requires PriceIs(x, s, m) && PriceIs(y, t, m)
    ensures PriceIs(x + y, s + t, m)
  {
    assert (s + t) as real * m.costPerMillionUsd == s as real * m.costPerMillionUsd + t as real * m.costPerMillionUsd;
  }

  /** The baseline fails exactly when there are steps and no frontier model. */
  lemma BaselineIsPriced(catalog: FrozenCatalog, steps: seq<TraceStep>)
    ensures var total := FrontierBaseline(catalog, steps);
      && (total.None? <==> |steps| > 0 && forall m | m in catalog.models :: m.tier != FrontierCloud)
      && (total.Some? ==> BaselineIs(total.value, steps, catalog.models))
  {
    CheapestInCatalog(catalog, FrontierCloud);
    var cheapest := CheapestModelForTier(catalog, FrontierCloud);
    if cheapest.Some? {
      var m := cheapest.value;
      CheapestIsLeast(catalog, FrontierCloud);
      LookupFinds(catalog.models, m);
      var entry := LookupModel(catalog.models, m.modelId).value;
      LookupIff(catalog.models, m.modelId, entry);
      BaselinePrices(catalog, steps, m, entry);
    }
  }

  ghost predicate Quotient(q: real, top: real, bottom: real) { q * bottom == top }

  /** The share of one figure in another, rounded; a fixed value where there is nothing to divide by. */
  ghost predicate ShareIs(rounded: real, top: real, bottom: real, otherwise: real) {
    if bottom > 0.0 then exists q :: Quotient(q, top, bottom) && Nearest(rounded, q) else rounded == otherwise
  }

  ghost predicate FiguresAre(c: FixtureCost, t: Totals, frontier: real) {
    && Nearest(c.actual, t.actual) && Nearest(c.hindsight, t.hindsight) && Nearest(c.regret, t.regret) && Nearest(c.frontierBaseline, frontier)
    && ShareIs(c.savingsRatio, t.hindsight, t.actual, 1.0) && ShareIs(c.savingsVsFrontier, frontier - t.actual, frontier, 0.0)
  }

  /** What the cost track reports of a fixture. */
  lemma FixtureFigures(f: Fixture, c: FixtureCost)
    requires FiguresOf(c, f)
    ensures exists t: Totals, frontier ::
      && TotalsAre(t, None) && |t.steps| == |f.steps| && (forall i | 0 <= i < |f.steps| :: StepIs(t.steps[i], f.steps[i], f.catalog.models))
      && BaselineIs(frontier, f.steps, f.catalog.models) && FiguresAre(c, t, frontier)
  {
    var t, frontier := Replayed(f, None).value, FrontierBaseline(f.catalog, f.steps).value;
    TraceReplays(f, None);
    BaselineIsPriced(f.catalog, f.steps);
    CostFigures(t, frontier);
  }

  lemma CostFigures(t: Totals, frontier: real)
    ensures FiguresAre(CostOf(t, frontier), t, frontier)
  {
    RoundsToNearest(t.actual);
    RoundsToNearest(t.hindsight);
    RoundsToNearest(t.regret);
    RoundsToNearest(frontier);
    if t.actual > 0.0 {
      ShareRounds(t.hindsight, t.actual);
    }
    if frontier > 0.0 {
      ShareRounds(frontier - t.actual, frontier);
    }
  }

  lemma ShareRounds(top: real, bottom: real)
    requires bottom > 0.0
    ensures ShareIs(RoundUsd(top / bottom), top, bottom, 0.0)
  {
    RoundsToNearest(top / bottom);
    assert Quotient(top / bottom, top, bottom);
  }

  lemma {:induction false} SumByIsSum(results: seq<FixtureCost>, field: FixtureCost -> real, f: FixtureCost -> real)
    requires forall c :: field(c) == f(c)
    ensures SumBy(results, field) == Sum(ListOf(results, f))
  {
    if |results| > 0 {
      var init, c := results[..|results| - 1], results[|results| - 1];
      assert results == init + [c];
      SumByIsSum(init, field, f);
      SumSnoc(init, c, f);
    }
  }

  /** The aggregate's three columns are the nearest to the sums of the fixtures' own. */
  lemma AggregateIsNearest(results: seq<FixtureCost>, a: AggregateCost)
    requires a == AggregateOf(results)
    ensures Nearest(a.actual, Sum(ListOf(results, (c: FixtureCost) => c.actual)))
    ensures Nearest(a.hindsight, Sum(ListOf(results, (c: FixtureCost) => c.hindsight)))
    ensures Nearest(a.regret, Sum(ListOf(results, (c: FixtureCost) => c.regret)))
  {
    SumByIsSum(results, ActualField(), (c: FixtureCost) => c.actual);
    SumByIsSum(results, HindsightField(), (c: FixtureCost) => c.hindsight);
    SumByIsSum(results, RegretField(), (c: FixtureCost) => c.regret);
    RoundsToNearest(SumBy(results, ActualField()));
    RoundsToNearest(SumBy(results, HindsightField()));
    RoundsToNearest(SumBy(results, RegretField()));
  }
}
