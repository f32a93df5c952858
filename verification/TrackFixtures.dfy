/** What the adapter makes of any static track, record by record and session by session. */
module TrackFixtures {
  import opened Wrappers
  import opened Sorting
  import opened Grouping
  import opened MappedLists
  import opened FixtureSchema
  import opened TwinRouterAdapter
  import opened TraceCosts
  import opened Replay

  // ---------------------------------------------------------------------------
  // One record
  // ---------------------------------------------------------------------------

  /** The record names the routing under test itself. */
  ghost predicate HasOwnBaseline(r: StaticRecord) { r.baselineTier.Some? && r.baselineModelId.Some? }

  /** The routing under test: the record's own, else the first of the cheapest economical models. */
  ghost predicate Routed(tier: Tier, modelId: string, reasonCode: string, r: StaticRecord, models: seq<CatalogModel>) {
    if HasOwnBaseline(r) then
      && Some(tier) == r.baselineTier && Some(modelId) == r.baselineModelId
      && reasonCode == if r.baselineReasonCode.Some? then r.baselineReasonCode.value else "twinrouterbench_baseline"
    else
      && tier == EconomicalCloud && reasonCode == "downgrade_first_candidate"
      && exists m: CatalogModel :: LeastOf(models, EconomicalCloud, m) && m.modelId == modelId
  }

  /** Its price is the first entry's with its id. */
  ghost predicate RoutingIs(a: RoutingDecision, r: StaticRecord, models: seq<CatalogModel>) {
    && Routed(a.tier, a.modelId, a.reasonCode, r, models)
    && exists entry :: EntryFor(models, a.modelId, entry) && PriceIs(a.costUsd, r.prefixTokenEstimate, entry)
  }

  /** The first tier is at least the second in zero, economical, frontier. */
  ghost predicate Reaches(tier: Tier, target: Tier) {
    || target.NotATier?
    || match tier
       case ZeroTier => target == ZeroTier
       case EconomicalCloud => target != FrontierCloud
       case FrontierCloud => true
       case NotATier(_) => false
  }

  /** The step a record becomes. */
  ghost predicate StepOfRecord(step: TraceStep, r: StaticRecord, models: seq<CatalogModel>) {
    && step.stepIndex == r.stepIndex && step.turnType == r.turnType && step.prefixHash == r.prefixHash
    && step.prefixTokenEstimate == r.prefixTokenEstimate && step.counterfactuals == []
    && RoutingIs(step.actual, r, models)
    && step.outcome.minTier == r.targetTier && step.outcome.minModelId == r.targetModelId
    && step.outcome.verifiedToolProgression == r.verifiedToolProgression
    && (step.outcome.success <==> Reaches(step.actual.tier, r.targetTier) && r.downgradeCascadeVerified)
  }

  /** The routing under test can be priced. */
  ghost predicate CanRoute(r: StaticRecord, models: seq<CatalogModel>) {
    if HasOwnBaseline(r) then exists m | m in models :: Some(m.modelId) == r.baselineModelId
    else exists m | m in models :: m.tier == EconomicalCloud
  }

  /** The target model is in the catalog, under its first entry, with the target tier. */
  ghost predicate TargetKnown(r: StaticRecord, models: seq<CatalogModel>) {
    exists m: CatalogModel :: EntryFor(models, m.modelId, m) && r.targetModelId == Some(m.modelId) && m.tier == r.targetTier
  }

  lemma RecordRoutes(r: StaticRecord, catalog: FrozenCatalog)
    ensures RecordToStep(r, catalog).Ok? <==> CanRoute(r, catalog.models)
  {
    CheapestIsLeast(catalog, EconomicalCloud);
    forall m | m in catalog.models ensures LookupModel(catalog.models, m.modelId).Some? {
      LookupFinds(catalog.models, m);
    }
  }

  lemma BaselineIsRouted(r: StaticRecord, catalog: FrozenCatalog, b: Baseline)
    requires ResolveBaselineRouting(r, catalog) == Ok(b)
    ensures Routed(b.tier, b.modelId, b.reasonCode, r, catalog.models)
  {
    CheapestInCatalog(catalog, EconomicalCloud);
    CheapestIsLeast(catalog, EconomicalCloud);
  }

  lemma ModelIsPriced(catalog: FrozenCatalog, id: string, tokens: nat, cost: real)
    requires EstimateStepCostUsd(catalog, id, tokens) == Some(cost)
    ensures exists entry :: EntryFor(catalog.models, id, entry) && PriceIs(cost, tokens, entry)
  {
    var entry := LookupModel(catalog.models, id).value;
    LookupIff(catalog.models, id, entry);
    PriceOfStep(entry, tokens);
  }

  lemma RecordStepIs(r: StaticRecord, catalog: FrozenCatalog, step: TraceStep)
    requires RecordToStep(r, catalog) == Ok(step)
    ensures StepOfRecord(step, r, catalog.models)
  {
    BaselineIsRouted(r, catalog, ResolveBaselineRouting(r, catalog).value);
    ModelIsPriced(catalog, step.actual.modelId, r.prefixTokenEstimate, step.actual.costUsd);
  }

  lemma StepLoads(r: StaticRecord, catalog: FrozenCatalog, step: TraceStep)
    requires StepOfRecord(step, r, catalog.models)
    ensures ValidStep(catalog, step) <==> TargetKnown(r, catalog.models)
  {
    forall id, m ensures LookupModel(catalog.models, id) == Some(m) <==> EntryFor(catalog.models, id, m) {
      LookupIff(catalog.models, id, m);
    }
  }

  // ---------------------------------------------------------------------------
  // One session
  // ---------------------------------------------------------------------------

  /** A sorted list of n numbers that has each of 0 to n - 1 is those numbers in order. */
  lemma {:induction false} CoversInOrder(xs: seq<int>)
    requires forall i, j | 0 <= i < j < |xs| :: xs[i] <= xs[j]
    requires forall i | 0 <= i < |xs| :: i in xs
    ensures forall i | 0 <= i < |xs| :: xs[i] == i
  {
    if |xs| > 0 {
      var n := |xs| - 1;
      var init := xs[..n];
      assert xs == init + [xs[n]] && n in xs;
      assert xs[n] >= n;
      forall i | 0 <= i < n ensures i in init {
        assert i in xs;
      }
      CoversInOrder(init);
    }
  }

  function HashOf(): StaticRecord -> string { (r: StaticRecord) => r.sessionIdHash }

  function OfSession(hash: string): StaticRecord -> bool { (r: StaticRecord) => r.sessionIdHash == hash }

  /** Each step index from 0 up to the number of records is some record's. */
  ghost predicate NumberedFromZero(session: seq<StaticRecord>) {
    forall i | 0 <= i < |session| :: HasStep(session, i)
  }

  ghost predicate HasStep(session: seq<StaticRecord>, i: int) { exists r | r in session :: r.stepIndex == i }

  /** The records sorted by step stand at their own indices. */
  ghost predicate InPlace(sorted: seq<StaticRecord>) { forall i | 0 <= i < |sorted| :: sorted[i].stepIndex == i }

  lemma SortedMembers(session: seq<StaticRecord>)
    ensures forall r :: r in Sort(session, StepLeq) <==> r in session
  {
    assert forall r :: r in session <==> r in multiset(session);
    assert forall r :: r in Sort(session, StepLeq) <==> r in multiset(Sort(session, StepLeq));
  }

  lemma InPlaceIsNumbered(session: seq<StaticRecord>)
    requires InPlace(Sort(session, StepLeq))
    ensures NumberedFromZero(session)
  {
    SortedMembers(session);
    forall i | 0 <= i < |session| ensures HasStep(session, i) {
      assert Sort(session, StepLeq)[i] in session;
    }
  }

  function StepIndex(): StaticRecord -> int { (r: StaticRecord) => r.stepIndex }

  lemma NumberedIsInPlace(session: seq<StaticRecord>)
    requires NumberedFromZero(session)
    ensures InPlace(Sort(session, StepLeq))
  {
    var sorted := Sort(session, StepLeq);
    SortedMembers(session);
    SortSorts(session, StepLeq);
    var xs := ListOf(sorted, StepIndex());
    forall i | 0 <= i < |xs| ensures i in xs {
      assert HasStep(session, i);
      ListOfHas(sorted, StepIndex(), i);
    }
    forall i, j | 0 <= i < j < |xs| ensures xs[i] <= xs[j] {
      assert StepLeq(sorted[i], sorted[j]);
    }
    CoversInOrder(xs);
  }

  ghost predicate Cites(session: seq<StaticRecord>, source: BenchmarkSource) { exists r | r in session :: r.source == source }

  ghost function Named(cited: bool, name: string): seq<string> { if cited then [name] else [] }

  /** The benchmarks a session's records come from, in alphabetical order. */
  ghost function SourceNames(session: seq<StaticRecord>): seq<string> {
    Named(Cites(session, Custom), "custom")
    + (Named(Cites(session, SweBenchVerified), "swe-bench-verified") + (Named(Cites(session, TerminalBench), "terminal-bench") + []))
  }

  function PlusJoined(names: seq<string>): string {
    if |names| == 0 then "" else if |names| == 1 then names[0] else names[0] + "+" + PlusJoined(names[1..])
  }

  /** The id names the benchmarks and the first twelve characters of the session's hash. */
  ghost predicate IdIs(id: string, hash: string, session: seq<StaticRecord>) {
    exists head ::
      && head <= hash && |head| == (if |hash| < 12 then |hash| else 12)
      && id == "trb-static-" + PlusJoined(SourceNames(session)) + "-" + head
  }

  /** The fixture of a session: a step for each record at its own index. */
  ghost predicate FixtureIs(f: Fixture, hash: string, session: seq<StaticRecord>, catalog: FrozenCatalog) {
    && f.catalog == catalog && f.sessionIdHash == hash && IdIs(f.fixtureId, hash, session)
    && |f.steps| == |session| && (forall r | r in session :: HasItsStep(f.steps, r, catalog.models))
    && f.outcome.finalTurnIndex == |session| - 1
    && (f.outcome.taskSuccess <==> forall s | s in f.steps :: s.outcome.success)
  }

  ghost predicate HasItsStep(steps: seq<TraceStep>, r: StaticRecord, models: seq<CatalogModel>) {
    0 <= r.stepIndex < |steps| && StepOfRecord(steps[r.stepIndex], r, models)
  }

  /** The text joins these names, none of them empty. */
  ghost predicate Joins(text: string, names: seq<string>) { text == PlusJoined(names) && (text == "" <==> names == []) }

  lemma NameJoins(name: string, cited: bool, rest: string, names: seq<string>)
    requires |name| > 0 && Joins(rest, names)
    ensures Joins(if cited then name + (if rest == "" then "" else "+" + rest) else rest, Named(cited, name) + names)
  {
    var all := Named(cited, name) + names;
    if cited {
      assert all[1..] == names && all[0] == name;
      if rest != "" {
        assert name + "+" + rest == name + ("+" + rest);
      }
    } else {
      assert all == names;
    }
  }

  lemma SourcesJoin(session: seq<StaticRecord>, source: BenchmarkSource, rest: seq<BenchmarkSource>, names: seq<string>)
    requires Joins(JoinSources(session, rest), names)
    ensures Joins(JoinSources(session, [source] + rest), Named(Cites(session, source), SourceName(source)) + names)
  {
    assert ([source] + rest)[1..] == rest;
    NameJoins(SourceName(source), Cites(session, source), JoinSources(session, rest), names);
  }

  lemma SourcesArePrinted(session: seq<StaticRecord>)
    ensures JoinSources(session, [Custom, SweBenchVerified, TerminalBench]) == PlusJoined(SourceNames(session))
  {
    assert Joins(JoinSources(session, []), []);
    var terminal := Named(Cites(session, TerminalBench), "terminal-bench") + [];
    SourcesJoin(session, TerminalBench, [], []);
    SourcesJoin(session, SweBenchVerified, [TerminalBench] + [], terminal);
    SourcesJoin(session, Custom, [SweBenchVerified] + ([TerminalBench] + []),
      Named(Cites(session, SweBenchVerified), "swe-bench-verified") + terminal);
    assert [Custom] + ([SweBenchVerified] + ([TerminalBench] + [])) == [Custom, SweBenchVerified, TerminalBench];
  }

  lemma SameSources(session: seq<StaticRecord>, sorted: seq<StaticRecord>)
    requires forall r :: r in sorted <==> r in session
    ensures SourceNames(sorted) == SourceNames(session)
  {
    assert forall source :: Cites(sorted, source) <==> Cites(session, source);
  }

  lemma IdIsPrinted(hash: string, session: seq<StaticRecord>, sorted: seq<StaticRecord>)
    requires forall r :: r in sorted <==> r in session
    ensures IdIs(FixtureIdForSession(hash, sorted), hash, session)
  {
    SourcesArePrinted(sorted);
    SameSources(session, sorted);
  }

  /** Everything the adapter asks of one record. */
  ghost predicate CanLoad(r: StaticRecord, models: seq<CatalogModel>) { CanRoute(r, models) && TargetKnown(r, models) }

  /** The sorted records' steps, one for one. */
  ghost predicate StepsOf(steps: seq<TraceStep>, sorted: seq<StaticRecord>, models: seq<CatalogModel>) {
    |steps| == |sorted| && forall i | 0 <= i < |sorted| :: StepOfRecord(steps[i], sorted[i], models)
  }

  lemma StepsConvert(sorted: seq<StaticRecord>, catalog: FrozenCatalog)
    ensures var r := Collect(StepResults(sorted, catalog));
      && (r.Ok? <==> forall x | x in sorted :: CanRoute(x, catalog.models))
      && (r.Ok? ==> StepsOf(r.value, sorted, catalog.models))
  {
    var results := StepResults(sorted, catalog);
    CollectDecides(results);
    forall i | 0 <= i < |sorted| ensures results[i].Ok? <==> CanRoute(sorted[i], catalog.models) {
      RecordRoutes(sorted[i], catalog);
    }
    if Collect(results).Ok? {
      forall i | 0 <= i < |sorted| ensures StepOfRecord(Collect(results).value[i], sorted[i], catalog.models) {
        RecordStepIs(sorted[i], catalog, Collect(results).value[i]);
      }
    }
  }

  lemma StepsLoad(f: Fixture, sorted: seq<StaticRecord>)
    requires StepsOf(f.steps, sorted, f.catalog.models) && InPlace(sorted)
    ensures ValidateFixture(f).Ok? <==> forall r | r in sorted :: TargetKnown(r, f.catalog.models)
    ensures ValidateFixture(f).Ok? ==> ValidateFixture(f) == Ok(f)
  {
    ValidationDecides(f);
    forall i | 0 <= i < |sorted| ensures ValidStep(f.catalog, f.steps[i]) <==> TargetKnown(sorted[i], f.catalog.models) {
      StepLoads(sorted[i], f.catalog, f.steps[i]);
    }
    forall s | s in f.steps ensures exists i :: 0 <= i < |sorted| && f.steps[i] == s {
    }
    assert forall i | 0 <= i < |sorted| :: f.steps[i] in f.steps && sorted[i] in sorted;
  }

  lemma StepsAtIndices(steps: seq<TraceStep>, sorted: seq<StaticRecord>, session: seq<StaticRecord>, models: seq<CatalogModel>)
    requires StepsOf(steps, sorted, models) && InPlace(sorted) && forall r :: r in sorted <==> r in session
    ensures forall r | r in session :: HasItsStep(steps, r, models)
  {
    forall r | r in session ensures HasItsStep(steps, r, models) {
      var i :| 0 <= i < |sorted| && sorted[i] == r;
    }
  }

  /** A session loads exactly when its records are numbered from 0 and each can be routed and aimed, and to one fixture. */
  lemma SessionFixture(hash: string, session: seq<StaticRecord>, catalog: FrozenCatalog)
    requires |session| > 0
    ensures var r := AdaptSession(hash, session, catalog);
      && (r.Ok? <==> NumberedFromZero(session) && forall x | x in session :: CanLoad(x, catalog.models))
      && (r.Ok? ==> FixtureIs(r.value, hash, session, catalog))
  {
    var sorted := Sort(session, StepLeq);
    SortedMembers(session);
    if NumberedFromZero(session) {
      NumberedIsInPlace(session);
      StepsConvert(sorted, catalog);
      if Collect(StepResults(sorted, catalog)).Ok? {
        SortedFixture(hash, session, sorted, Collect(StepResults(sorted, catalog)).value, catalog);
      }
    } else if InPlace(sorted) {
      InPlaceIsNumbered(session);
    }
  }

  lemma SortedFixture(hash: string, session: seq<StaticRecord>, sorted: seq<StaticRecord>, steps: seq<TraceStep>, catalog: FrozenCatalog)
    requires |sorted| == |session| > 0 && InPlace(sorted) && StepsOf(steps, sorted, catalog.models)
    requires forall r :: r in sorted <==> r in session
    ensures var f := Fixture(FixtureIdForSession(hash, sorted), catalog, hash, steps,
                             TraceOutcome(AllSucceed(steps), sorted[|sorted| - 1].stepIndex));
      && FixtureIs(f, hash, session, catalog)
      && (ValidateFixture(f).Ok? <==> forall r | r in session :: TargetKnown(r, catalog.models))
      && (ValidateFixture(f).Ok? ==> ValidateFixture(f) == Ok(f))
  {
    IdIsPrinted(hash, session, sorted);
    StepsAtIndices(steps, sorted, session, catalog.models);
    StepsLoad(Fixture(FixtureIdForSession(hash, sorted), catalog, hash, steps,
                      TraceOutcome(AllSucceed(steps), sorted[|sorted| - 1].stepIndex)), sorted);
  }

  // ---------------------------------------------------------------------------
  // A whole track
  // ---------------------------------------------------------------------------

  lemma {:induction false} SameGroups(records: seq<StaticRecord>, hash: string)
    ensures Members(records, SessionKey(), hash) == Filter(records, OfSession(hash))
  {
    if |records| > 0 {
      var init, r := records[..|records| - 1], records[|records| - 1];
      assert records == init + [r];
      SameGroups(init, hash);
      MembersSnoc(init, r, SessionKey(), hash);
      FilterSnoc(init, r, OfSession(hash));
    }
  }

  lemma {:induction false} SameOrder(records: seq<StaticRecord>)
    ensures KeyOrder(records, SessionKey()) == KeyOrder(records, HashOf())
  {
    if |records| > 0 {
      SameOrder(records[..|records| - 1]);
    }
  }

  /** The track's session of this hash loads. */
  ghost predicate SessionReady(track: StaticTrack, hash: string) {
    var session := Filter(track.records, OfSession(hash));
    NumberedFromZero(session) && forall r | r in session :: CanLoad(r, track.catalog.models)
  }

  /** The fixture is that of the track's session of this hash. */
  ghost predicate FixtureOfSession(track: StaticTrack, hash: string, f: Fixture) {
    FixtureIs(f, hash, Filter(track.records, OfSession(hash)), track.catalog)
  }

  /** One session's result is right: a fixture exactly when it is ready, and then its own. */
  ghost predicate RightResult(track: StaticTrack, hash: string, r: Result<Fixture, FixtureError>) {
    (r.Ok? <==> SessionReady(track, hash)) && (r.Ok? ==> FixtureOfSession(track, hash, r.value))
  }

  lemma SessionAdapts(track: StaticTrack, hash: string)
    requires |Members(track.records, SessionKey(), hash)| > 0
    ensures RightResult(track, hash, AdaptSession(hash, Members(track.records, SessionKey(), hash), track.catalog))
  {
    SameGroups(track.records, hash);
    SessionFixture(hash, Filter(track.records, OfSession(hash)), track.catalog);
  }

  lemma AllReadyIff(track: StaticTrack)
    ensures (forall hash | hash in KeyOrder(track.records, HashOf()) :: SessionReady(track, hash))
      <==> forall x | x in track.records :: SessionReady(track, x.sessionIdHash)
  {
    forall hash ensures hash in KeyOrder(track.records, HashOf()) <==> exists x | x in track.records :: x.sessionIdHash == hash {
      KeysAreSeen(track.records, HashOf(), hash);
    }
  }

  lemma CollectSessions(track: StaticTrack, ids: seq<string>, results: seq<Result<Fixture, FixtureError>>)
    requires |results| == |ids| && forall j | 0 <= j < |ids| :: RightResult(track, ids[j], results[j])
    ensures Collect(results).Ok? <==> forall hash | hash in ids :: SessionReady(track, hash)
    ensures Collect(results).Ok? ==>
      |Collect(results).value| == |ids| && forall j | 0 <= j < |ids| :: FixtureOfSession(track, ids[j], Collect(results).value[j])
  {
    CollectDecides(results);
    assert forall j | 0 <= j < |ids| :: results[j].Ok? <==> SessionReady(track, ids[j]);
  }

  /**
   * A track loads exactly when every session is numbered from 0 and every record can be routed and
   * aimed; then each session, in order of first appearance, gives one fixture with a step for each
   * of its records.
   */
  lemma TrackAdapts(track: StaticTrack)
    ensures var ids, r := KeyOrder(track.records, HashOf()), Adapt(track);
      && (r.Ok? <==> forall x | x in track.records :: SessionReady(track, x.sessionIdHash))
      && (r.Ok? ==> |r.value| == |ids| && forall j | 0 <= j < |ids| :: FixtureOfSession(track, ids[j], r.value[j]))
  {
    SameOrder(track.records);
    KeyOrderFacts(track.records, SessionKey());
    var ids := KeyOrder(track.records, HashOf());
    var results := SessionResults(ids, track.records, track.catalog);
    forall j | 0 <= j < |ids| ensures RightResult(track, ids[j], results[j]) {
      assert ids[j] in ids;
      SessionAdapts(track, ids[j]);
    }
    CollectSessions(track, ids, results);
    AllReadyIff(track);
  }
}
