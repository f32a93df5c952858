/** The ingest and the adapter end to end, on the upstream rows themselves. */
module TwinRouterRows {
  import opened Wrappers
  import opened Sorting
  import opened Grouping
  import opened MappedLists
  import opened FixtureSchema
  import opened TwinRouterAdapter
  import opened TwinRouterIngest
  import opened TwinRouterTheorems

  // ---------------------------------------------------------------------------
  // Which rows convert
  // ---------------------------------------------------------------------------

  /** The tier id the benchmark documents for each of its four tiers. */
  ghost predicate TierIdIs(tier: string, id: int) {
    (tier == "low" && id == 0) || (tier == "mid" && id == 1) || (tier == "mid_high" && id == 2) || (tier == "high" && id == 3)
  }

  ghost predicate KnownStage(stage: string) {
    stage == "ground_truth_ready" || stage == "mixed_model_validated" || stage == "degradation_search_done"
  }

  /** A row of one of the four tiers converts exactly when its tier id, if stated, is that tier's and its stage is known. */
  lemma TieredRowConverts(row: UpstreamRow, digests: Digests)
    requires row.targetTier in {"low", "mid", "mid_high", "high"}
    ensures ConvertUpstreamRow(row, digests).Ok? <==>
      (row.targetTierId.Some? ==> TierIdIs(row.targetTier, row.targetTierId.value)) && KnownStage(row.pipelineStage)
    ensures ConvertUpstreamRow(row, digests) == Err(TierIdDiffers) <==>
      row.targetTierId.Some? && !TierIdIs(row.targetTier, row.targetTierId.value)
  {
    OwnKeysAreNotInherited();
  }

  /** A row of any other name is skipped as unmappable, unless the name is inherited. */
  lemma OtherTiersAreUnmappable(row: UpstreamRow, digests: Digests)
    requires row.targetTier !in {"low", "mid", "mid_high", "high"}
    ensures ConvertUpstreamRow(row, digests) == Err(UnmappableTier) <==> row.targetTier !in INHERITED_NAMES
  {
  }

  // ---------------------------------------------------------------------------
  // The step a row becomes
  // ---------------------------------------------------------------------------

  ghost predicate TargetIs(tier: string, target: Tier, modelId: Option<string>) {
    match tier
    case "low" => target == ZeroTier && modelId == Some("ollama/llama3.2:3b")
    case "mid" => target == EconomicalCloud && modelId == Some("gpt-4o-mini")
    case _ => target == FrontierCloud && modelId == Some("claude-sonnet-4")
  }

  /** All roles and contents run together. */
  function Text(messages: seq<Message>): string {
    if |messages| == 0 then ""
    else Text(messages[..|messages| - 1]) + (messages[|messages| - 1].role + messages[|messages| - 1].content)
  }

  lemma {:induction false} CharsAreText(messages: seq<Message>)
    ensures CharCount(messages) == |Text(messages)|
  {
    if |messages| > 0 {
      CharsAreText(messages[..|messages| - 1]);
    }
  }

  /** What step i of a session says about the row it comes from. */
  ghost predicate StepOfRow(step: TraceStep, row: UpstreamRow, i: nat, digests: Digests) {
    && step.stepIndex == i
    && step.turnType == (if i > 0 && exists m | m in row.messages :: m.role == "tool" then "tool_result" else "main_loop")
    && step.prefixHash == digests.prefix(row.messages)
    && |Text(row.messages)| <= 4 * step.prefixTokenEstimate < |Text(row.messages)| + 4
    && step.actual.tier == EconomicalCloud && step.actual.modelId == "gpt-4o-mini"
    && step.actual.costUsd * 1_000_000.0 == step.prefixTokenEstimate as real * 0.15
    && step.actual.reasonCode == "downgrade_first_candidate"
    && TargetIs(row.targetTier, step.outcome.minTier, step.outcome.minModelId)
    && (step.outcome.success <==> row.targetTier == "low" || row.targetTier == "mid")
    && (step.outcome.verifiedToolProgression <==> row.pipelineStage != "degradation_search_done")
    && step.counterfactuals == []
  }

  ghost predicate Tiered(row: UpstreamRow) { row.targetTier in {"low", "mid", "mid_high", "high"} }

  lemma RolesHaveTool(messages: seq<Message>)
    ensures "tool" in Roles(messages) <==> exists m | m in messages :: m.role == "tool"
  {
    if "tool" in Roles(messages) {
      var i :| 0 <= i < |messages| && Roles(messages)[i] == "tool";
      assert messages[i] in messages;
    }
    if m :| m in messages && m.role == "tool" {
      var i :| 0 <= i < |messages| && messages[i] == m;
      assert Roles(messages)[i] == "tool";
    }
  }

  lemma EconomicalPrice(tokens: nat)
    ensures EstimateStepCostUsd(DEFAULT_CATALOG, "gpt-4o-mini", tokens).Some?
    ensures EstimateStepCostUsd(DEFAULT_CATALOG, "gpt-4o-mini", tokens).value * 1_000_000.0 == tokens as real * 0.15
  {
    var ms := DEFAULT_CATALOG.models;
    assert |"gpt-4o-mini"| == 11 && |"ollama/llama3.2:3b"| == 18;
    assert ms[1..][0] == ms[1];
  }

  /** What the converter writes down of a row, before it is numbered. */
  ghost predicate RecordOfRow(r: StaticRecord, row: UpstreamRow, digests: Digests) {
    && r.traceId == row.id && r.sessionIdHash == digests.session(row.instanceId) && r.prefixHash == digests.prefix(row.messages)
    && |Text(row.messages)| <= 4 * r.prefixTokenEstimate < |Text(row.messages)| + 4
    && TargetIs(row.targetTier, r.targetTier, r.targetModelId)
    && (r.verifiedToolProgression <==> row.pipelineStage != "degradation_search_done")
    && r.downgradeCascadeVerified && r.baselineTier.None?
    && r.source == if row.benchmark == "swebench" then SweBenchVerified else Custom
  }

  lemma RowRecord(row: UpstreamRow, d: Draft, digests: Digests)
    requires ConvertUpstreamRow(row, digests) == Ok(d) && Tiered(row)
    ensures RecordOfRow(d.record, row, digests)
    ensures d.instanceId == row.instanceId && d.upstreamStepIndex == row.stepIndex && d.messageRoles == Roles(row.messages)
  {
    CharsAreText(row.messages);
  }

  lemma RecordStep(r: StaticRecord, row: UpstreamRow, i: nat, digests: Digests)
    requires RecordOfRow(r, row, digests) && Tiered(row) && r.stepIndex == i
    requires r.turnType == InferTurnType(Roles(row.messages), i)
    ensures var step := RecordToStep(r, DEFAULT_CATALOG); step.Ok? && StepOfRow(step.value, row, i, digests)
  {
    DefaultEconomical();
    EconomicalPrice(r.prefixTokenEstimate);
    RolesHaveTool(row.messages);
  }

  lemma RowStep(row: UpstreamRow, d: Draft, i: nat, digests: Digests)
    requires ConvertUpstreamRow(row, digests) == Ok(d) && Tiered(row)
    ensures StepOf(d, i).Ok? && StepOfRow(StepOf(d, i).value, row, i, digests)
  {
    RowRecord(row, d, digests);
    RecordStep(Reindexed(d, i), row, i, digests);
  }

  // ---------------------------------------------------------------------------
  // The fixtures of a file
  // ---------------------------------------------------------------------------

  function InstanceOf(): UpstreamRow -> string { (row: UpstreamRow) => row.instanceId }

  predicate StepOrder(a: UpstreamRow, b: UpstreamRow) { a.stepIndex <= b.stepIndex }

  function OfInstance(id: string): UpstreamRow -> bool { (row: UpstreamRow) => row.instanceId == id }

  /** The rows of one instance by upstream step, ties in file order. */
  function InstanceRows(rows: seq<UpstreamRow>, id: string): seq<UpstreamRow> {
    Sort(Filter(rows, OfInstance(id)), StepOrder)
  }

  const NO_DRAFT := Draft(
    StaticRecord("", "", 0, "", "", 0, ZeroTier, None, false, false, Custom, None, None, None), 0, "", [])

  /** A row's draft; any draft at all for a row that does not convert. */
  function DraftOf(digests: Digests): UpstreamRow -> Draft {
    (row: UpstreamRow) => if ConvertUpstreamRow(row, digests).Ok? then ConvertUpstreamRow(row, digests).value else NO_DRAFT
  }

  /** Different instances of the file have different session digests. */
  ghost predicate SessionsApart(rows: seq<UpstreamRow>, digests: Digests) {
    forall a, b | a in rows && b in rows && digests.session(a.instanceId) == digests.session(b.instanceId) :: a.instanceId == b.instanceId
  }

  lemma RowKeys(row: UpstreamRow, digests: Digests)
    requires ConvertUpstreamRow(row, digests).Ok?
    ensures DraftKey()(DraftOf(digests)(row)) == digests.session(row.instanceId)
    ensures DraftOf(digests)(row).upstreamStepIndex == row.stepIndex
  {
  }

  lemma DraftsAreMapped(rows: seq<UpstreamRow>, drafts: seq<Draft>, digests: Digests)
    requires ConvertedFrom(drafts, rows, digests)
    ensures drafts == ListOf(rows, DraftOf(digests)) && forall row | row in rows :: ConvertUpstreamRow(row, digests).Ok?
  {
  }

  /** Sessions are instances, in the order their first rows come. */
  lemma SessionsAreInstances(rows: seq<UpstreamRow>, drafts: seq<Draft>, digests: Digests)
    requires ConvertedFrom(drafts, rows, digests) && SessionsApart(rows, digests)
    ensures KeyOrder(drafts, DraftKey()) == ListOf(KeyOrder(rows, InstanceOf()), digests.session)
  {
    DraftsAreMapped(rows, drafts, digests);
    forall row | row in rows ensures DraftKey()(DraftOf(digests)(row)) == digests.session(InstanceOf()(row)) {
      RowKeys(row, digests);
    }
    KeyOrderMapped(rows, DraftOf(digests), InstanceOf(), DraftKey(), digests.session);
  }

  lemma DigestSeparates(rows: seq<UpstreamRow>, digests: Digests, row: UpstreamRow, other: UpstreamRow)
    requires SessionsApart(rows, digests) && row in rows && other in rows && ConvertUpstreamRow(row, digests).Ok?
    ensures row.instanceId == other.instanceId <==> DraftKey()(DraftOf(digests)(row)) == digests.session(other.instanceId)
  {
    RowKeys(row, digests);
  }

  lemma InstanceMembers(rows: seq<UpstreamRow>, drafts: seq<Draft>, digests: Digests, id: string)
    requires ConvertedFrom(drafts, rows, digests) && SessionsApart(rows, digests)
    requires exists row | row in rows :: row.instanceId == id
    ensures Members(drafts, DraftKey(), digests.session(id)) == ListOf(Filter(rows, OfInstance(id)), DraftOf(digests))
  {
    DraftsAreMapped(rows, drafts, digests);
    var other :| other in rows && other.instanceId == id;
    forall row | row in rows ensures OfInstance(id)(row) == (DraftKey()(DraftOf(digests)(row)) == digests.session(id)) {
      DigestSeparates(rows, digests, row, other);
    }
    MembersMapped(rows, DraftOf(digests), OfInstance(id), DraftKey(), digests.session(id));
  }

  lemma DraftsSortAsRows(rows: seq<UpstreamRow>, digests: Digests)
    requires forall row | row in rows :: ConvertUpstreamRow(row, digests).Ok?
    ensures Sort(ListOf(rows, DraftOf(digests)), UpstreamLeq) == ListOf(Sort(rows, StepOrder), DraftOf(digests))
  {
    forall a, b | a in rows && b in rows ensures StepOrder(a, b) == UpstreamLeq(DraftOf(digests)(a), DraftOf(digests)(b)) {
      RowKeys(a, digests);
      RowKeys(b, digests);
    }
    SortMapped(rows, DraftOf(digests), StepOrder, UpstreamLeq);
  }

  lemma SessionIsInstance(rows: seq<UpstreamRow>, drafts: seq<Draft>, digests: Digests, id: string)
    requires ConvertedFrom(drafts, rows, digests) && SessionsApart(rows, digests)
    requires exists row | row in rows :: row.instanceId == id
    ensures SessionDrafts(drafts, digests.session(id)) == ListOf(InstanceRows(rows, id), DraftOf(digests))
  {
    InstanceMembers(rows, drafts, digests, id);
    DraftsAreMapped(rows, drafts, digests);
    FilterMembers(rows, OfInstance(id));
    DraftsSortAsRows(Filter(rows, OfInstance(id)), digests);
  }

  /** The steps are the rows', one for one. */
  ghost predicate StepsOfRows(steps: seq<TraceStep>, rows: seq<UpstreamRow>, digests: Digests) {
    |steps| == |rows| && forall i | 0 <= i < |rows| :: StepOfRow(steps[i], rows[i], i, digests)
  }

  lemma SortKeepsMembers(s: seq<UpstreamRow>, row: UpstreamRow)
    requires row in Sort(s, StepOrder)
    ensures row in s
  {
    assert row in multiset(Sort(s, StepOrder));
  }

  lemma InstanceSteps(rows: seq<UpstreamRow>, drafts: seq<Draft>, digests: Digests, id: string, f: Fixture)
    requires ConvertedFrom(drafts, rows, digests) && SessionsApart(rows, digests) && forall row | row in rows :: Tiered(row)
    requires exists row | row in rows :: row.instanceId == id
    requires FixtureOf(f, drafts, digests.session(id))
    ensures StepsOfRows(f.steps, InstanceRows(rows, id), digests)
  {
    var mine, sorted := InstanceRows(rows, id), SessionDrafts(drafts, digests.session(id));
    SessionIsInstance(rows, drafts, digests, id);
    DraftsAreMapped(rows, drafts, digests);
    forall i | 0 <= i < |mine| ensures StepOfRow(f.steps[i], mine[i], i, digests) {
      SortKeepsMembers(Filter(rows, OfInstance(id)), mine[i]);
      FilterMembers(rows, OfInstance(id));
      RowStep(mine[i], sorted[i], i, digests);
      assert StepOf(sorted[i], i) == Ok(f.steps[i]);
    }
  }

  lemma TieredIsNotInherited(rows: seq<UpstreamRow>)
    requires forall row | row in rows :: Tiered(row)
    ensures forall row | row in rows :: row.targetTier !in INHERITED_NAMES
  {
    OwnKeysAreNotInherited();
  }

  /**
   * From rows to fixtures. Rows of the four tiers that convert give a track that loads, with one fixture
   * for each instance id, in the order their first rows come; its steps are that instance's rows by
   * upstream step, each with the row's own target, price, prefix and flags.
   */
  lemma FixturesFollowInstances(rows: seq<UpstreamRow>, drafts: seq<Draft>, digests: Digests)
    requires |rows| > 0 && ConvertedFrom(drafts, rows, digests) && SessionsApart(rows, digests)
    requires forall row | row in rows :: Tiered(row)
    ensures var ids, r := KeyOrder(rows, InstanceOf()), Adapt(StaticTrack(DEFAULT_CATALOG, AssembledRecords(drafts)));
      && r.Ok? && |r.value| == |ids|
      && forall j | 0 <= j < |ids| ::
           r.value[j].sessionIdHash == digests.session(ids[j]) && StepsOfRows(r.value[j].steps, InstanceRows(rows, ids[j]), digests)
  {
    TieredIsNotInherited(rows);
    IngestLoadsIff(rows, drafts, digests);
    SessionsAreInstances(rows, drafts, digests);
    var ids, order := KeyOrder(rows, InstanceOf()), KeyOrder(drafts, DraftKey());
    var r := Adapt(StaticTrack(DEFAULT_CATALOG, AssembledRecords(drafts)));
    forall j | 0 <= j < |ids|
      ensures r.value[j].sessionIdHash == digests.session(ids[j]) && StepsOfRows(r.value[j].steps, InstanceRows(rows, ids[j]), digests)
    {
      KeysAreSeen(rows, InstanceOf(), ids[j]);
      assert FixtureAt(drafts, order)(j, r.value[j]);
      InstanceSteps(rows, drafts, digests, ids[j], r.value[j]);
    }
  }
}
