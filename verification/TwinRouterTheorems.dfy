/** Early exit loses nothing, and what the converter writes always loads. */
module TwinRouterTheorems {
  import opened Wrappers
  import opened Sorting
  import opened Grouping
  import opened FixtureSchema
  import opened TwinRouterAdapter
  import opened TwinRouterIngest
  import opened TwinRouterScan

  // ---------------------------------------------------------------------------
  // Early exit
  // ---------------------------------------------------------------------------

  lemma {:induction false} KeptGrows(lines: seq<Line>, m: nat, n: nat, o: ScanOptions, convert: Converter)
    requires m <= n <= |lines|
    ensures |Kept(lines, m, o, convert)| <= |Kept(lines, n, o, convert)|
    ensures Kept(lines, n, o, convert)[..|Kept(lines, m, o, convert)|] == Kept(lines, m, o, convert)
    ensures |Kept(lines, n, o, convert)| == |Kept(lines, m, o, convert)| ==>
      Kept(lines, n, o, convert) == Kept(lines, m, o, convert)
  {
    if m < n {
      KeptGrows(lines, m, n - 1, o, convert);
    }
  }

  /** One benchmark's kept rows: those with fewer than `quota` convertible ones before them. */
  function KeptOf(lines: seq<Line>, n: nat, convert: Converter, benchmark: string, quota: int): seq<nat>
    requires n <= |lines|
  {
    if n == 0 then []
    else KeptOf(lines, n - 1, convert, benchmark, quota)
         + if HasRoom(lines, n - 1, convert, benchmark, quota) then [n - 1] else []
  }

  predicate HasRoom(lines: seq<Line>, i: nat, convert: Converter, benchmark: string, quota: int)
    requires i < |lines|
  {
    && Convertible(lines[i], convert) && lines[i].row.benchmark == benchmark
    && |ConvertibleLines(lines, i, convert, benchmark)| < quota
  }

  lemma {:induction false} KeptOfIsFirst(lines: seq<Line>, n: nat, convert: Converter, benchmark: string, quota: int)
    requires n <= |lines| && quota >= 0
    ensures KeptOf(lines, n, convert, benchmark, quota)
         == FirstOf(ConvertibleLines(lines, n, convert, benchmark), quota)
  {
    if n > 0 {
      KeptOfIsFirst(lines, n - 1, convert, benchmark, quota);
    }
  }

  lemma CodeToolName(b: string)
    ensures IsCodeTool(b) <==> b == "swebench" || b == "bfcl" || b == "pinchbench"
    ensures "swebench" != "bfcl" && "bfcl" != "pinchbench" && "swebench" != "pinchbench"
  {
    assert CODE_TOOL_BENCHMARKS[0] == "swebench" && CODE_TOOL_BENCHMARKS[1] == "bfcl" && CODE_TOOL_BENCHMARKS[2] == "pinchbench";
    assert |"swebench"| != |"bfcl"| && |"bfcl"| != |"pinchbench"| && |"swebench"| != |"pinchbench"|;
  }

  /** The number of rows kept from the three code/tool benchmarks, each under its own quota. */
  function RoomTaken(lines: seq<Line>, n: nat, convert: Converter, q0: int, q1: int, q2: int): nat
    requires n <= |lines|
  {
    |KeptOf(lines, n, convert, "swebench", q0)| + |KeptOf(lines, n, convert, "bfcl", q1)|
    + |KeptOf(lines, n, convert, "pinchbench", q2)|
  }

  lemma {:induction false} KeptIsCounted(lines: seq<Line>, n: nat, o: ScanOptions, convert: Converter)
    requires n <= |lines| && o.UsesQuotas()
    ensures var l := o.limit.value;
      |Kept(lines, n, o, convert)|
      == RoomTaken(lines, n, convert, Quota(l, "swebench"), Quota(l, "bfcl"), Quota(l, "pinchbench"))
  {
    if n > 0 {
      KeptIsCounted(lines, n - 1, o, convert);
    }
  }

  /** Quotas cap the kept rows at the limit. */
  lemma KeptWithinLimit(lines: seq<Line>, n: nat, o: ScanOptions, convert: Converter)
    requires n <= |lines| && o.UsesQuotas() && o.limit.value >= 1
    ensures |Kept(lines, n, o, convert)| <= o.limit.value
  {
    KeptIsCounted(lines, n, o, convert);
    QuotasShareLimit(o.limit.value);
    CodeToolName("swebench");
    CodeToolName("bfcl");
    CodeToolName("pinchbench");
    KeptOfIsFirst(lines, n, convert, "swebench", Quota(o.limit.value, "swebench"));
    KeptOfIsFirst(lines, n, convert, "bfcl", Quota(o.limit.value, "bfcl"));
    KeptOfIsFirst(lines, n, convert, "pinchbench", Quota(o.limit.value, "pinchbench"));
  }

  lemma {:induction false} StopIsDone(lines: seq<Line>, n: nat, o: ScanOptions, convert: Converter)
    requires n <= |lines|
    requires o.Target().Some? ==> |Kept(lines, n, o, convert)| <= o.Target().value
    ensures var stop := StopAt(lines, n, o, convert);
      && (stop == |lines| || Done(lines, stop, o, convert))
      && (o.Target().Some? ==> |Kept(lines, stop, o, convert)| <= o.Target().value)
    decreases |lines| - n
  {
    if n < |lines| && !Done(lines, n, o, convert) {
      StopIsDone(lines, n + 1, o, convert);
    }
  }

  /**
   * Early exit loses nothing. Under quotas the rows kept by the time the loop stops are all the
   * rows the whole file would have yielded; with a bare limit they are the first `limit` of them;
   * without a limit the whole file is scanned.
   */
  lemma EarlyExitLosesNothing(lines: seq<Line>, o: ScanOptions, convert: Converter)
    requires o.limit.Some? ==> o.limit.value >= 1
    ensures var stop, all := StopAt(lines, 0, o, convert), Kept(lines, |lines|, o, convert);
      Kept(lines, stop, o, convert)
      == if o.UsesQuotas() || o.limit.None? || |all| <= o.limit.value then all else all[..o.limit.value]
  {
    var stop := StopAt(lines, 0, o, convert);
    StopIsDone(lines, 0, o, convert);
    KeptGrows(lines, stop, |lines|, o, convert);
    if o.UsesQuotas() {
      KeptWithinLimit(lines, |lines|, o, convert);
    }
  }

  /** True at the line numbers of one benchmark's rows. */
  function OfBenchmark(lines: seq<Line>, benchmark: string): nat -> bool {
    (i: nat) => i < |lines| && lines[i].Row? && lines[i].row.benchmark == benchmark
  }

  /** The kept rows of one benchmark among the first `n` lines. */
  ghost function KeptRowsOf(lines: seq<Line>, n: nat, o: ScanOptions, convert: Converter, benchmark: string): seq<nat>
    requires n <= |lines|
  {
    Filter(Kept(lines, n, o, convert), OfBenchmark(lines, benchmark))
  }

  lemma KeepsIfRoom(lines: seq<Line>, i: nat, o: ScanOptions, convert: Converter, benchmark: string)
    requires i < |lines| && o.UsesQuotas() && IsCodeTool(benchmark)
    ensures Keeps(lines, i, o, convert) && OfBenchmark(lines, benchmark)(i)
       <==> HasRoom(lines, i, convert, benchmark, Quota(o.limit.value, benchmark))
  {
  }

  lemma KeptFilteredStep(lines: seq<Line>, n: nat, o: ScanOptions, convert: Converter, benchmark: string)
    requires 0 < n <= |lines|
    ensures KeptRowsOf(lines, n, o, convert, benchmark)
         == KeptRowsOf(lines, n - 1, o, convert, benchmark)
            + if Keeps(lines, n - 1, o, convert) && OfBenchmark(lines, benchmark)(n - 1) then [n - 1] else []
  {
    var kept := Kept(lines, n - 1, o, convert);
    if Keeps(lines, n - 1, o, convert) {
      FilterSnoc<nat>(kept, n - 1, OfBenchmark(lines, benchmark));
    } else {
      assert kept + [] == kept;
    }
  }

  lemma KeptWithRoom(lines: seq<Line>, n: nat, o: ScanOptions, convert: Converter, benchmark: string)
    requires 0 < n <= |lines| && o.UsesQuotas() && IsCodeTool(benchmark)
    ensures KeptRowsOf(lines, n, o, convert, benchmark)
         == KeptRowsOf(lines, n - 1, o, convert, benchmark)
            + if HasRoom(lines, n - 1, convert, benchmark, Quota(o.limit.value, benchmark)) then [n - 1] else []
  {
    KeepsIfRoom(lines, n - 1, o, convert, benchmark);
    KeptFilteredStep(lines, n, o, convert, benchmark);
  }

  /** What `n` lines keep of the benchmark is what its own quota lets through. */
  ghost predicate KeepsItsOwn(lines: seq<Line>, n: nat, o: ScanOptions, convert: Converter, benchmark: string)
    requires n <= |lines| && o.UsesQuotas()
  {
    KeptRowsOf(lines, n, o, convert, benchmark) == KeptOf(lines, n, convert, benchmark, Quota(o.limit.value, benchmark))
  }

  lemma KeepsItsOwnStep(lines: seq<Line>, n: nat, o: ScanOptions, convert: Converter, benchmark: string)
    requires 0 < n <= |lines| && o.UsesQuotas() && IsCodeTool(benchmark)
    requires KeepsItsOwn(lines, n - 1, o, convert, benchmark)
    ensures KeepsItsOwn(lines, n, o, convert, benchmark)
  {
    KeptWithRoom(lines, n, o, convert, benchmark);
  }

  lemma {:induction false} KeptFiltered(lines: seq<Line>, n: nat, o: ScanOptions, convert: Converter, benchmark: string)
    requires n <= |lines| && o.UsesQuotas() && IsCodeTool(benchmark)
    ensures KeepsItsOwn(lines, n, o, convert, benchmark)
  {
    if n == 0 {
      assert Kept(lines, 0, o, convert) == [];
    } else {
      KeptFiltered(lines, n - 1, o, convert, benchmark);
      KeepsItsOwnStep(lines, n, o, convert, benchmark);
    }
  }

  /** Under quotas, each benchmark keeps exactly its first quota-many convertible rows, in file order. */
  lemma FirstQuotaPerBenchmark(lines: seq<Line>, o: ScanOptions, convert: Converter, benchmark: string)
    requires o.UsesQuotas() && o.limit.value >= 1 && IsCodeTool(benchmark)
    ensures KeptRowsOf(lines, |lines|, o, convert, benchmark)
         == FirstOf(ConvertibleLines(lines, |lines|, convert, benchmark), Quota(o.limit.value, benchmark))
  {
    QuotasShareLimit(o.limit.value);
    KeptFiltered(lines, |lines|, o, convert, benchmark);
    KeptOfIsFirst(lines, |lines|, convert, benchmark, Quota(o.limit.value, benchmark));
  }

  /** No row outside the code/tool benchmarks is kept when they are preferred. */
  lemma OnlyCodeTools(lines: seq<Line>, o: ScanOptions, convert: Converter, i: nat)
    requires o.preferCodeTool && i in Kept(lines, |lines|, o, convert)
    ensures i < |lines| && lines[i].Row? && IsCodeTool(lines[i].row.benchmark)
  {
  }

  // ---------------------------------------------------------------------------
  // Regrouping the assembled records
  // ---------------------------------------------------------------------------

  lemma SessionRecordsKeyed(drafts: seq<Draft>, hash: string)
    ensures forall r | r in SessionRecords(drafts, hash) :: r.sessionIdHash == hash
    ensures |SessionRecords(drafts, hash)| == |Members(drafts, DraftKey(), hash)|
  {
    var members, sorted := Members(drafts, DraftKey(), hash), SessionDrafts(drafts, hash);
    MembersHaveKey(drafts, DraftKey(), hash);
    forall d | d in sorted ensures d.record.sessionIdHash == hash {
      assert d in multiset(sorted);
      assert d in members;
    }
  }

  /** Regrouping the written records by session gives back each session's records, in session order. */
  lemma {:induction false} RegroupFlat(order: seq<string>, drafts: seq<Draft>)
    requires Distinct(order) && forall h | h in order :: |Members(drafts, DraftKey(), h)| > 0
    ensures KeyOrder(FlatRecords(order, drafts), SessionKey()) == order
    ensures Regroups(FlatRecords(order, drafts), order, drafts)
  {
    if |order| > 0 {
      var init, h := order[..|order| - 1], order[|order| - 1];
      assert order == init + [h];
      RegroupFlat(init, drafts);
      RegroupStep(init, h, drafts);
    }
  }

  lemma FlatSnoc(init: seq<string>, h: string, drafts: seq<Draft>)
    ensures FlatRecords(init + [h], drafts) == FlatRecords(init, drafts) + SessionRecords(drafts, h)
  {
    assert (init + [h])[..|init|] == init;
  }

  /** Every session's records regroup to themselves, and no other session has any. */
  ghost predicate Regroups(records: seq<StaticRecord>, order: seq<string>, drafts: seq<Draft>) {
    forall h :: Members(records, SessionKey(), h) == if h in order then SessionRecords(drafts, h) else []
  }

  lemma RegroupStep(init: seq<string>, h: string, drafts: seq<Draft>)
    requires h !in init && |Members(drafts, DraftKey(), h)| > 0
    requires KeyOrder(FlatRecords(init, drafts), SessionKey()) == init
    requires Regroups(FlatRecords(init, drafts), init, drafts)
    ensures KeyOrder(FlatRecords(init + [h], drafts), SessionKey()) == init + [h]
    ensures Regroups(FlatRecords(init + [h], drafts), init + [h], drafts)
  {
    FlatSnoc(init, h, drafts);
    SessionRecordsKeyed(drafts, h);
    var s, t := FlatRecords(init, drafts), SessionRecords(drafts, h);
    KeyOrderAppend(s, t, SessionKey(), h);
    RegroupAppends(s, t, init, h, drafts);
  }

  lemma RegroupAppends(s: seq<StaticRecord>, t: seq<StaticRecord>, init: seq<string>, h: string, drafts: seq<Draft>)
    requires h !in init && t == SessionRecords(drafts, h) && Regroups(s, init, drafts)
    requires forall r | r in t :: r.sessionIdHash == h
    ensures Regroups(s + t, init + [h], drafts)
  {
    forall k ensures Members(s + t, SessionKey(), k) == if k in init + [h] then SessionRecords(drafts, k) else [] {
      MembersAppend(s, t, SessionKey(), h, k);
    }
  }

  // ---------------------------------------------------------------------------
  // Every written step validates
  // ---------------------------------------------------------------------------

  /** What conversion guarantees about a draft's record. */
  ghost predicate Targeted(r: StaticRecord) {
    r.baselineTier.None? && r.baselineModelId.None? && r.targetModelId == ModelIdForTier(r.targetTier)
  }

  /** The record's target really is a tier. */
  predicate Mapped(r: StaticRecord) { !r.targetTier.NotATier? }

  lemma ConversionTargets(row: UpstreamRow, d: Draft, digests: Digests)
    requires ConvertUpstreamRow(row, digests) == Ok(d)
    ensures Targeted(d.record)
    ensures Mapped(d.record) <==> row.targetTier !in INHERITED_NAMES
  {
    OwnKeysAreNotInherited();
  }

  lemma OwnKeysAreNotInherited()
    ensures forall t | t in INHERITED_NAMES :: t != "low" && t != "mid" && t != "mid_high" && t != "high"
  {
    assert forall t | t in INHERITED_NAMES :: |t| >= 7 && (|t| == 8 ==> t[0] == 't');
  }

  lemma MiddleFilter<T>(a: T, b: T, c: T, p: T -> bool)
    requires !p(a) && p(b) && !p(c)
    ensures Filter([a, b, c], p) == [b]
  {
    FilterSnoc([], a, p);
    FilterSnoc([a], b, p);
    FilterSnoc([a, b], c, p);
    assert [] + [a] == [a] && [a] + [b] == [a, b] && [a, b] + [c] == [a, b, c];
  }

  lemma DefaultEconomical()
    ensures CheapestModelForTier(DEFAULT_CATALOG, EconomicalCloud) == Some(CatalogModel("gpt-4o-mini", EconomicalCloud, 0.15))
  {
    var ms, tier := DEFAULT_CATALOG.models, EconomicalCloud;
    MiddleFilter(ms[0], ms[1], ms[2], (m: CatalogModel) => m.tier == tier);
    assert ms == [ms[0], ms[1], ms[2]];
  }

  lemma DefaultModels(t: Tier)
    ensures var m := LookupId(DEFAULT_CATALOG.models, ModelIdForTier(t));
      if t.NotATier? then m.None? else m.Some? && m.value.tier == t
  {
    var ms := DEFAULT_CATALOG.models;
    var a, b, c := "ollama/llama3.2:3b", "gpt-4o-mini", "claude-sonnet-4";
    assert |a| == 18 && |b| == 11 && |c| == 15;
    assert ms[1..][0] == ms[1] && ms[1..][1..][0] == ms[2];
  }

  /** A converted record becomes a step, which passes every cross-field check exactly when its target is a tier. */
  lemma TargetedStep(r: StaticRecord)
    requires Targeted(r)
    ensures var step := RecordToStep(r, DEFAULT_CATALOG);
      && step.Ok? && step.value.stepIndex == r.stepIndex
      && (ValidStep(DEFAULT_CATALOG, step.value) <==> Mapped(r))
  {
    DefaultEconomical();
    DefaultModels(EconomicalCloud);
    DefaultModels(r.targetTier);
  }

  /** The step a session's draft becomes at position `i`. */
  function StepOf(d: Draft, i: nat): Result<TraceStep, FixtureError> { RecordToStep(Reindexed(d, i), DEFAULT_CATALOG) }

  lemma DraftStep(d: Draft, i: nat)
    requires Targeted(d.record)
    ensures StepOf(d, i).Ok? && StepOf(d, i).value.stepIndex == i
    ensures ValidStep(DEFAULT_CATALOG, StepOf(d, i).value) <==> Mapped(d.record)
  {
    TargetedStep(Reindexed(d, i));
  }

  ghost predicate AllTargeted(drafts: seq<Draft>) { forall d | d in drafts :: Targeted(d.record) }

  lemma SessionDraftsTargeted(drafts: seq<Draft>, hash: string)
    requires AllTargeted(drafts)
    ensures AllTargeted(SessionDrafts(drafts, hash))
    ensures forall d :: d in SessionDrafts(drafts, hash) <==> d in drafts && DraftKey()(d) == hash
  {
    MembersHaveKey(drafts, DraftKey(), hash);
    var members, sorted := Members(drafts, DraftKey(), hash), SessionDrafts(drafts, hash);
    forall d ensures d in sorted <==> d in members {
      assert d in sorted <==> d in multiset(sorted);
      assert d in members <==> d in multiset(members);
    }
  }

  /** Renumbered records are already in step order and contiguous from 0. */
  lemma ReindexedInOrder(drafts: seq<Draft>)
    ensures Sort(ReindexAll(drafts), StepLeq) == ReindexAll(drafts)
    ensures RecordGap(ReindexAll(drafts), 0).None?
  {
    SortFixed(ReindexAll(drafts), StepLeq);
  }

  /** Every step converted, numbered by its position. */
  ghost predicate Converted(results: seq<Result<TraceStep, FixtureError>>) {
    && Collect(results).Ok? && |Collect(results).value| == |results|
    && forall i | 0 <= i < |results| :: results[i] == Ok(Collect(results).value[i]) && results[i].value.stepIndex == i
  }

  ghost predicate AllValid(results: seq<Result<TraceStep, FixtureError>>) {
    forall i | 0 <= i < |results| :: results[i].Ok? && ValidStep(DEFAULT_CATALOG, results[i].value)
  }

  ghost predicate AllMapped(drafts: seq<Draft>) { forall d | d in drafts :: Mapped(d.record) }

  /** The steps are the drafts' own, in order. */
  ghost predicate StepsMatch(sorted: seq<Draft>, steps: seq<TraceStep>) {
    |steps| == |sorted| && forall i | 0 <= i < |sorted| :: StepOf(sorted[i], i) == Ok(steps[i])
  }

  lemma StepConverts(sorted: seq<Draft>, i: nat)
    requires AllTargeted(sorted) && i < |sorted|
    ensures var results := StepResults(ReindexAll(sorted), DEFAULT_CATALOG);
      && results[i] == StepOf(sorted[i], i) && results[i].Ok? && results[i].value.stepIndex == i
      && (ValidStep(DEFAULT_CATALOG, results[i].value) <==> Mapped(sorted[i].record))
  {
    assert sorted[i] in sorted;
    DraftStep(sorted[i], i);
  }

  lemma StepsConvert(sorted: seq<Draft>)
    requires AllTargeted(sorted)
    ensures var results := StepResults(ReindexAll(sorted), DEFAULT_CATALOG);
      Converted(results) && StepsMatch(sorted, Collect(results).value) && (AllValid(results) <==> AllMapped(sorted))
  {
    var results := StepResults(ReindexAll(sorted), DEFAULT_CATALOG);
    forall i | 0 <= i < |results|
      ensures results[i] == StepOf(sorted[i], i) && results[i].Ok? && results[i].value.stepIndex == i
      ensures ValidStep(DEFAULT_CATALOG, results[i].value) <==> Mapped(sorted[i].record)
    {
      StepConverts(sorted, i);
    }
    CollectDecides(results);
    ValidAsMapped(sorted, results);
  }

  lemma ValidAsMapped(sorted: seq<Draft>, results: seq<Result<TraceStep, FixtureError>>)
    requires |results| == |sorted| && forall i | 0 <= i < |results| :: results[i].Ok?
    requires forall i | 0 <= i < |results| :: ValidStep(DEFAULT_CATALOG, results[i].value) <==> Mapped(sorted[i].record)
    ensures AllValid(results) <==> AllMapped(sorted)
  {
    assert forall i | 0 <= i < |results| :: sorted[i] in sorted && results[i].Ok?;
  }

  /** Numbered steps validate exactly when each passes its own checks. */
  lemma StepsValidate(f: Fixture, results: seq<Result<TraceStep, FixtureError>>)
    requires Converted(results) && f.catalog == DEFAULT_CATALOG && f.steps == Collect(results).value
    ensures ValidateFixture(f).Ok? <==> AllValid(results)
    ensures ValidateFixture(f).Ok? ==> ValidFixture(f) && ValidateFixture(f) == Ok(f)
  {
    ValidationDecides(f);
    forall i | 0 <= i < |f.steps| ensures f.steps[i].stepIndex == i && f.steps[i] == results[i].value && f.steps[i] in f.steps {
      assert results[i] == Ok(f.steps[i]);
    }
  }

  /** The session's records are in step order from 0 and every one of them converts. */
  ghost predicate InOrder(records: seq<StaticRecord>) {
    |records| > 0 && Sort(records, StepLeq) == records && RecordGap(records, 0).None? && Converted(StepResults(records, DEFAULT_CATALOG))
  }

  lemma SessionAdapts(records: seq<StaticRecord>, hash: string)
    requires |records| > 0
    ensures var r, results := AdaptSession(hash, records, DEFAULT_CATALOG), StepResults(records, DEFAULT_CATALOG);
      InOrder(records) ==>
        && (r.Ok? <==> AllValid(results))
        && (r.Ok? ==> ValidFixture(r.value) && r.value.sessionIdHash == hash && r.value.steps == Collect(results).value)
  {
    if InOrder(records) {
      var steps := Collect(StepResults(records, DEFAULT_CATALOG)).value;
      var f := Fixture(FixtureIdForSession(hash, records), DEFAULT_CATALOG, hash, steps,
                       TraceOutcome(AllSucceed(steps), records[|records| - 1].stepIndex));
      StepsValidate(f, StepResults(records, DEFAULT_CATALOG));
    }
  }

  /** A session loads exactly when every draft's target is a tier, and then its steps are its drafts, in order. */
  lemma SessionLoads(sorted: seq<Draft>, hash: string)
    requires |sorted| > 0 && AllTargeted(sorted)
    ensures var r := AdaptSession(hash, ReindexAll(sorted), DEFAULT_CATALOG);
      && (r.Ok? <==> AllMapped(sorted))
      && (r.Ok? ==> ValidFixture(r.value) && r.value.sessionIdHash == hash && StepsMatch(sorted, r.value.steps))
  {
    StepsConvert(sorted);
    ReindexedInOrder(sorted);
    SessionAdapts(ReindexAll(sorted), hash);
  }

  lemma OrderFacts(drafts: seq<Draft>)
    ensures var order := KeyOrder(drafts, DraftKey());
      Distinct(order) && forall h | h in order :: |Members(drafts, DraftKey(), h)| > 0
  {
    KeyOrderFacts(drafts, DraftKey());
  }

  /** Position `j` of the converted sessions: the fixture of the j-th session, whole and in order. */
  ghost predicate FixtureOf(f: Fixture, drafts: seq<Draft>, hash: string) {
    f.sessionIdHash == hash && ValidFixture(f) && StepsMatch(SessionDrafts(drafts, hash), f.steps)
  }

  ghost function FixtureAt(drafts: seq<Draft>, order: seq<string>): (nat, Fixture) -> bool {
    (j: nat, f: Fixture) => j < |order| && FixtureOf(f, drafts, order[j])
  }

  /** The records' groups are the drafts' sessions. */
  ghost predicate Regrouped(order: seq<string>, records: seq<StaticRecord>, drafts: seq<Draft>) {
    forall h | h in order :: |Members(drafts, DraftKey(), h)| > 0
      && Members(records, SessionKey(), h) == SessionRecords(drafts, h) && |Members(records, SessionKey(), h)| > 0
  }

  lemma AssembledGroups(drafts: seq<Draft>)
    ensures var order, records := KeyOrder(drafts, DraftKey()), AssembledRecords(drafts);
      KeyOrder(records, SessionKey()) == order && Regrouped(order, records, drafts)
  {
    var order := KeyOrder(drafts, DraftKey());
    OrderFacts(drafts);
    RegroupFlat(order, drafts);
  }

  lemma SessionFixture(drafts: seq<Draft>, hash: string)
    requires AllTargeted(drafts) && |Members(drafts, DraftKey(), hash)| > 0
    ensures var r := AdaptSession(hash, SessionRecords(drafts, hash), DEFAULT_CATALOG);
      && (r.Ok? <==> forall d | d in drafts && DraftKey()(d) == hash :: Mapped(d.record))
      && (r.Ok? ==> FixtureOf(r.value, drafts, hash))
  {
    SessionDraftsTargeted(drafts, hash);
    SessionLoads(SessionDrafts(drafts, hash), hash);
  }

  lemma SessionsLoad(order: seq<string>, records: seq<StaticRecord>, drafts: seq<Draft>)
    requires AllTargeted(drafts) && Regrouped(order, records, drafts) && forall d | d in drafts :: DraftKey()(d) in order
    ensures var r := Collect(SessionResults(order, records, DEFAULT_CATALOG));
      && (r.Ok? <==> forall d | d in drafts :: Mapped(d.record))
      && (r.Ok? ==> |r.value| == |order| && forall j: nat | j < |order| :: FixtureAt(drafts, order)(j, r.value[j]))
  {
    var results := SessionResults(order, records, DEFAULT_CATALOG);
    forall j: nat | j < |results|
      ensures results[j].Ok? <==> forall d | d in drafts && DraftKey()(d) == order[j] :: Mapped(d.record)
      ensures results[j].Ok? ==> FixtureAt(drafts, order)(j, results[j].value)
    {
      assert order[j] in order;
      SessionFixture(drafts, order[j]);
    }
    CollectDecides(results);
    if Collect(results).Ok? {
      CollectKeeps(results, FixtureAt(drafts, order));
    }
  }

  /** The drafts are what the converter made of the rows, one for one. */
  ghost predicate ConvertedFrom(drafts: seq<Draft>, rows: seq<UpstreamRow>, digests: Digests) {
    |drafts| == |rows| && forall i | 0 <= i < |rows| :: ConvertUpstreamRow(rows[i], digests) == Ok(drafts[i])
  }

  /**
   * What the converter writes loads exactly when no row's target tier is an inherited name: then the
   * adapter returns one valid fixture per session, in order of first appearance, whose steps are that
   * session's drafts in upstream order.
   */
  lemma IngestLoadsIff(rows: seq<UpstreamRow>, drafts: seq<Draft>, digests: Digests)
    requires |drafts| > 0 && ConvertedFrom(drafts, rows, digests)
    ensures var order, r := KeyOrder(drafts, DraftKey()), Adapt(StaticTrack(DEFAULT_CATALOG, AssembledRecords(drafts)));
      && (r.Ok? <==> forall row | row in rows :: row.targetTier !in INHERITED_NAMES)
      && (r.Ok? ==> |r.value| == |order| > 0 && forall j: nat | j < |order| :: FixtureAt(drafts, order)(j, r.value[j]))
  {
    forall i | 0 <= i < |rows|
      ensures Targeted(drafts[i].record) && (Mapped(drafts[i].record) <==> rows[i].targetTier !in INHERITED_NAMES)
    {
      ConversionTargets(rows[i], drafts[i], digests);
    }
    assert AllTargeted(drafts);
    assert (forall d | d in drafts :: Mapped(d.record)) <==> forall row | row in rows :: row.targetTier !in INHERITED_NAMES by {
      MappedRows(rows, drafts);
    }
    KeyOrderFacts(drafts, DraftKey());
    AssembledGroups(drafts);
    SessionsLoad(KeyOrder(drafts, DraftKey()), AssembledRecords(drafts), drafts);
  }

  lemma MappedRows(rows: seq<UpstreamRow>, drafts: seq<Draft>)
    requires |rows| == |drafts|
    requires forall i | 0 <= i < |rows| :: Mapped(drafts[i].record) <==> rows[i].targetTier !in INHERITED_NAMES
    ensures (forall d | d in drafts :: Mapped(d.record)) <==> forall row | row in rows :: row.targetTier !in INHERITED_NAMES
  {
    assert forall i | 0 <= i < |rows| :: drafts[i] in drafts && rows[i] in rows;
  }

  /** A row whose target tier is "constructor" converts, whatever else it holds, and its track does not load. */
  lemma InheritedTierDoesNotLoad(row: UpstreamRow, digests: Digests)
    requires row.targetTier == "constructor" && row.targetTierId.None? && row.pipelineStage == "ground_truth_ready"
    ensures var draft := ConvertUpstreamRow(row, digests);
      draft.Ok? && Adapt(StaticTrack(DEFAULT_CATALOG, AssembledRecords([draft.value]))).Err?
  {
    OwnKeysAreNotInherited();
    assert row.targetTier in INHERITED_NAMES;
    IngestLoadsIff([row], [ConvertUpstreamRow(row, digests).value], digests);
    assert row in [row];
  }

  // ---------------------------------------------------------------------------
  // Nothing lost, order kept
  // ---------------------------------------------------------------------------

  /** The drafts of the sessions in `order`, each session sorted. */
  function FlatDrafts(order: seq<string>, drafts: seq<Draft>): seq<Draft> {
    if |order| == 0 then [] else FlatDrafts(order[..|order| - 1], drafts) + SessionDrafts(drafts, order[|order| - 1])
  }

  lemma {:induction false} MembersCount(drafts: seq<Draft>, hash: string, d: Draft)
    ensures multiset(Members(drafts, DraftKey(), hash))[d] == if d.record.sessionIdHash == hash then multiset(drafts)[d] else 0
  {
    if |drafts| > 0 {
      var init, x := drafts[..|drafts| - 1], drafts[|drafts| - 1];
      assert drafts == init + [x];
      MembersSnoc(init, x, DraftKey(), hash);
      MembersCount(init, hash, d);
    }
  }

  lemma {:induction false} FlatCount(order: seq<string>, drafts: seq<Draft>, d: Draft)
    requires Distinct(order)
    ensures multiset(FlatDrafts(order, drafts))[d] == if d.record.sessionIdHash in order then multiset(drafts)[d] else 0
  {
    if |order| > 0 {
      var init, h := order[..|order| - 1], order[|order| - 1];
      assert order == init + [h];
      assert h !in init;
      FlatCount(init, drafts, d);
      MembersCount(drafts, h, d);
    }
  }

  /** Every draft lands in exactly one session: the sessions together are a permutation of the drafts. */
  lemma SessionsPartitionDrafts(drafts: seq<Draft>)
    ensures multiset(FlatDrafts(KeyOrder(drafts, DraftKey()), drafts)) == multiset(drafts)
  {
    var order := KeyOrder(drafts, DraftKey());
    OrderFacts(drafts);
    KeyOrderFacts(drafts, DraftKey());
    forall d ensures multiset(FlatDrafts(order, drafts))[d] == multiset(drafts)[d] {
      FlatCount(order, drafts, d);
      if d in multiset(drafts) {
        assert d in drafts;
        assert DraftKey()(d) in order;
      }
    }
  }

  /** Within a session steps follow the upstream index, and equal indices keep file order. */
  lemma UpstreamOrderKept(drafts: seq<Draft>, hash: string, index: int)
    ensures SortedBy(SessionDrafts(drafts, hash), UpstreamLeq)
    ensures Filter(SessionDrafts(drafts, hash), (d: Draft) => d.upstreamStepIndex == index)
         == Filter(Members(drafts, DraftKey(), hash), (d: Draft) => d.upstreamStepIndex == index)
  {
    SortSorts(Members(drafts, DraftKey(), hash), UpstreamLeq);
    SortStable(Members(drafts, DraftKey(), hash), UpstreamLeq, (d: Draft) => d.upstreamStepIndex == index);
  }

  // ---------------------------------------------------------------------------
  // End to end
  // ---------------------------------------------------------------------------

  /** The converter with its digests fixed. */
  function ConverterWith(digests: Digests): Converter { (row: UpstreamRow) => ConvertUpstreamRow(row, digests) }

  function RowsAt(lines: seq<Line>, at: seq<nat>): (rows: seq<UpstreamRow>)
    requires forall j | 0 <= j < |at| :: at[j] < |lines| && lines[at[j]].Row?
    ensures |rows| == |at| && forall j | 0 <= j < |at| :: rows[j] == lines[at[j]].row
  {
    seq(|at|, j requires 0 <= j < |at| => lines[at[j]].row)
  }

  /** Drafts made from some rows of the file load exactly when none of those rows names an inherited tier. */
  lemma RowsLoadIff(lines: seq<Line>, at: seq<nat>, digests: Digests)
    requires |at| > 0 && forall j | 0 <= j < |at| :: at[j] < |lines| && Convertible(lines[at[j]], ConverterWith(digests))
    ensures Adapt(StaticTrack(DEFAULT_CATALOG, AssembledRecords(DraftsAt(lines, at, ConverterWith(digests))))).Ok?
      <==> forall j | 0 <= j < |at| :: lines[at[j]].row.targetTier !in INHERITED_NAMES
  {
    var rows := RowsAt(lines, at);
    assert forall j | 0 <= j < |at| :: rows[j] in rows;
    IngestLoadsIff(rows, DraftsAt(lines, at, ConverterWith(digests)), digests);
  }

  /** The rows a scan keeps before it stops. */
  function KeptRows(lines: seq<Line>, o: ScanOptions, convert: Converter): seq<nat> { Kept(lines, StopAt(lines, 0, o, convert), o, convert) }

  lemma ScanReturnsKeptRows(lines: seq<Line>, o: ScanOptions, convert: Converter)
    ensures forall j | 0 <= j < |KeptRows(lines, o, convert)| ::
      KeptRows(lines, o, convert)[j] < |lines| && Convertible(lines[KeptRows(lines, o, convert)[j]], convert)
    ensures var r := ScanOutcome(lines, o, convert);
      r.Ok? && |r.value.drafts| > 0 ==> r.value.drafts == DraftsAt(lines, KeptRows(lines, o, convert), convert)
  {
    var at := KeptRows(lines, o, convert);
    assert forall j | 0 <= j < |at| :: Keeps(lines, at[j], o, convert);
  }

  /** Whatever its options, a scan that returns drafts returns a track that loads exactly when no kept row names an inherited tier. */
  lemma ScannedTrackLoadsIff(lines: seq<Line>, o: ScanOptions, digests: Digests)
    ensures var r, at := ScanOutcome(lines, o, ConverterWith(digests)), KeptRows(lines, o, ConverterWith(digests));
      r.Ok? && |r.value.drafts| > 0 ==>
        (Adapt(StaticTrack(DEFAULT_CATALOG, AssembledRecords(r.value.drafts))).Ok?
         <==> forall j | 0 <= j < |at| :: lines[at[j]].row.targetTier !in INHERITED_NAMES)
  {
    ScanReturnsKeptRows(lines, o, ConverterWith(digests));
    var r, at := ScanOutcome(lines, o, ConverterWith(digests)), KeptRows(lines, o, ConverterWith(digests));
    if r.Ok? && |r.value.drafts| > 0 {
      RowsLoadIff(lines, at, digests);
    }
  }
}
