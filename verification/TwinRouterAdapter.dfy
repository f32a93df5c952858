/** Static-track records regrouped by session and converted to validated eval fixtures. */
module TwinRouterAdapter {
  import opened Wrappers
  import opened Sorting
  import opened Grouping
  import opened FixtureSchema

  datatype BenchmarkSource = SweBenchVerified | TerminalBench | Custom

  datatype StaticRecord = StaticRecord(
    traceId: string, sessionIdHash: string, stepIndex: int, turnType: string,
    prefixHash: string, prefixTokenEstimate: nat,
    targetTier: Tier, targetModelId: Option<string>,
    verifiedToolProgression: bool, downgradeCascadeVerified: bool, source: BenchmarkSource,
    baselineTier: Option<Tier>, baselineModelId: Option<string>, baselineReasonCode: Option<string>)

  datatype StaticTrack = StaticTrack(catalog: FrozenCatalog, records: seq<StaticRecord>)

  datatype Baseline = Baseline(tier: Tier, modelId: string, reasonCode: string)

  /** The routing under test: the record's own baseline, else the cheapest economical model. */
  function ResolveBaselineRouting(r: StaticRecord, catalog: FrozenCatalog): Result<Baseline, FixtureError> {
    if r.baselineTier.Some? && r.baselineModelId.Some? then
      Ok(Baseline(r.baselineTier.value, r.baselineModelId.value, r.baselineReasonCode.GetOr("twinrouterbench_baseline")))
    else
      match CheapestModelForTier(catalog, EconomicalCloud)
      case Some(m) => Ok(Baseline(m.tier, m.modelId, "downgrade_first_candidate"))
      case None => Err(NoModelForTier(EconomicalCloud))
  }

  function RecordToStep(r: StaticRecord, catalog: FrozenCatalog): Result<TraceStep, FixtureError> {
    match ResolveBaselineRouting(r, catalog)
    case Err(e) => Err(e)
    case Ok(b) =>
      match EstimateStepCostUsd(catalog, b.modelId, r.prefixTokenEstimate)
      case None => Err(UnknownModel(Some(b.modelId)))
      case Some(cost) =>
        var adequate := TierAtLeast(b.tier, r.targetTier) && r.downgradeCascadeVerified;
        Ok(TraceStep(r.stepIndex, r.turnType, r.prefixHash, r.prefixTokenEstimate,
                     RoutingDecision(b.tier, b.modelId, cost, b.reasonCode),
                     StepOutcome(adequate, r.targetTier, r.targetModelId, r.verifiedToolProgression), []))
  }

  function SessionKey(): StaticRecord -> string { (r: StaticRecord) => r.sessionIdHash }

  predicate StepLeq(a: StaticRecord, b: StaticRecord) { a.stepIndex <= b.stepIndex }

  function RecordGap(records: seq<StaticRecord>, from: nat): (r: Option<nat>)
    requires from <= |records|
    ensures r.Some? ==> from <= r.value < |records|
    ensures r.None? <==> forall i | from <= i < |records| :: records[i].stepIndex == i
    decreases |records| - from
  {
    if from == |records| then None
    else if records[from].stepIndex != from then Some(from)
    else RecordGap(records, from + 1)
  }

  function StepResults(records: seq<StaticRecord>, catalog: FrozenCatalog): seq<Result<TraceStep, FixtureError>> {
    seq(|records|, i requires 0 <= i < |records| => RecordToStep(records[i], catalog))
  }

  function SourceName(s: BenchmarkSource): string {
    match s
    case SweBenchVerified => "swe-bench-verified"
    case TerminalBench => "terminal-bench"
    case Custom => "custom"
  }

  /** The distinct source names in alphabetical order, joined by `+`. */
  function JoinSources(records: seq<StaticRecord>, sources: seq<BenchmarkSource>): string {
    if |sources| == 0 then ""
    else
      var rest := JoinSources(records, sources[1..]);
      if exists r | r in records :: r.source == sources[0] then
        SourceName(sources[0]) + if rest == "" then "" else "+" + rest
      else rest
  }

  function FixtureIdForSession(hash: string, records: seq<StaticRecord>): string {
    "trb-static-" + JoinSources(records, [Custom, SweBenchVerified, TerminalBench]) + "-"
      + if |hash| <= 12 then hash else hash[..12]
  }

  predicate AllSucceed(steps: seq<TraceStep>) { forall s | s in steps :: s.outcome.success }

  function AdaptSession(hash: string, group: seq<StaticRecord>, catalog: FrozenCatalog): Result<Fixture, FixtureError>
    requires |group| > 0
  {
    var sorted := Sort(group, StepLeq);
    match RecordGap(sorted, 0)
    case Some(i) => Err(NotContiguous(i, sorted[i].stepIndex))
    case None =>
      match Collect(StepResults(sorted, catalog))
      case Err(e) => Err(e)
      case Ok(steps) =>
        ValidateFixture(Fixture(FixtureIdForSession(hash, sorted), catalog, hash, steps,
                                TraceOutcome(AllSucceed(steps), sorted[|sorted| - 1].stepIndex)))
  }

  function SessionResults(order: seq<string>, records: seq<StaticRecord>, catalog: FrozenCatalog): (rs: seq<Result<Fixture, FixtureError>>)
    requires forall h | h in order :: |Members(records, SessionKey(), h)| > 0
    ensures |rs| == |order|
    ensures forall i | 0 <= i < |order| :: rs[i] == AdaptSession(order[i], Members(records, SessionKey(), order[i]), catalog)
  {
    seq(|order|, i requires 0 <= i < |order| => AdaptSession(order[i], Members(records, SessionKey(), order[i]), catalog))
  }

  /** Sessions converted in order of first appearance; the first failing one decides the error. */
  function Adapt(track: StaticTrack): Result<seq<Fixture>, FixtureError> {
    KeyOrderFacts(track.records, SessionKey());
    Collect(SessionResults(KeyOrder(track.records, SessionKey()), track.records, track.catalog))
  }

  method AdaptTwinRouterBenchStaticTrack(track: StaticTrack) returns (r: Result<seq<Fixture>, FixtureError>)
    ensures r == Adapt(track)
  {
    KeyOrderFacts(track.records, SessionKey());
    var order, bySession := GroupInOrder(track.records, SessionKey());
    ghost var results := SessionResults(order, track.records, track.catalog);
    var fixtures := [];
    var i := 0;
    while i < |order|
      invariant 0 <= i <= |order|
      invariant Collect(results[..i]) == Ok(fixtures)
    {
      CollectSnoc(results, i);
      assert order[i] in order && |bySession[order[i]]| > 0;
      var fixture := AdaptSession(order[i], bySession[order[i]], track.catalog);
      assert fixture == results[i];
      if fixture.Err? {
        CollectStops(results, i + 1);
        return Err(fixture.error);
      }
      fixtures := fixtures + [fixture.value];
      i := i + 1;
    }
    assert results[..|order|] == results;
    return Ok(fixtures);
  }
}
