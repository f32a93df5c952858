/** Upstream question-bank rows converted, filtered by quota and assembled into a static track. */
module TwinRouterIngest {
  import opened Wrappers
  import opened Sorting
  import opened Grouping
  import opened FixtureSchema
  import opened TwinRouterAdapter

  const DEFAULT_CATALOG := FrozenCatalog("pi-smart-router-v0.5.0-eval", "2026-07-01", [
    CatalogModel("ollama/llama3.2:3b", ZeroTier, 0.0),
    CatalogModel("gpt-4o-mini", EconomicalCloud, 0.15),
    CatalogModel("claude-sonnet-4", FrontierCloud, 3.0)])

  /** Undefined for what is not a tier. */
  function ModelIdForTier(t: Tier): Option<string> {
    match t
    case ZeroTier => Some("ollama/llama3.2:3b")
    case EconomicalCloud => Some("gpt-4o-mini")
    case FrontierCloud => Some("claude-sonnet-4")
    case NotATier(_) => None
  }

  datatype Message = Message(role: string, content: string)

  /** A schema-valid upstream row, message contents already flattened to text. */
  datatype UpstreamRow = UpstreamRow(
    id: string, instanceId: string, stepIndex: int, messages: seq<Message>,
    targetTier: string, targetTierId: Option<int>, benchmark: string, pipelineStage: string)

  /** The two digests the converter takes: of an instance id and of a message list. */
  datatype Digests = Digests(session: string -> string, prefix: seq<Message> -> string)

  datatype SkipReason =
    | UnmappableTier | TierIdDiffers | UnsupportedPipelineStage | SchemaInvalid | NonCodeToolWorkload

  datatype Draft = Draft(record: StaticRecord, upstreamStepIndex: int, instanceId: string, messageRoles: seq<string>)

  /** A plain object lookup: besides its four keys the table answers to the inherited names, with no tier. */
  function MapUpstreamTier(tier: string): Option<Tier> {
    if tier == "low" then Some(ZeroTier)
    else if tier == "mid" then Some(EconomicalCloud)
    else if tier == "mid_high" || tier == "high" then Some(FrontierCloud)
    else if tier in INHERITED_NAMES then Some(NotATier(tier))
    else None
  }

  function UpstreamTierId(tier: string): Option<int> {
    if tier == "low" then Some(0)
    else if tier == "mid" then Some(1)
    else if tier == "mid_high" then Some(2)
    else if tier == "high" then Some(3)
    else None
  }

  /** A stated tier id that is not the table's; what an inherited name looks up is no id at all. */
  predicate TierIdMismatch(row: UpstreamRow) {
    row.targetTierId.Some?
    && (row.targetTier in INHERITED_NAMES || (UpstreamTierId(row.targetTier).Some? && row.targetTierId != UpstreamTierId(row.targetTier)))
  }

  datatype Flags = Flags(downgradeCascadeVerified: bool, verifiedToolProgression: bool)

  function VerificationFlags(stage: string): Option<Flags> {
    if stage == "ground_truth_ready" || stage == "mixed_model_validated" then Some(Flags(true, true))
    else if stage == "degradation_search_done" then Some(Flags(true, false))
    else None
  }

  function InferTurnType(roles: seq<string>, step: int): string {
    if step == 0 then "main_loop" else if "tool" in roles then "tool_result" else "main_loop"
  }

  function CharCount(messages: seq<Message>): nat {
    if |messages| == 0 then 0
    else CharCount(messages[..|messages| - 1]) + |messages[|messages| - 1].role| + |messages[|messages| - 1].content|
  }

  function Roles(messages: seq<Message>): seq<string> {
    seq(|messages|, i requires 0 <= i < |messages| => messages[i].role)
  }

  function ConvertUpstreamRow(row: UpstreamRow, d: Digests): Result<Draft, SkipReason> {
    var tier, flags := MapUpstreamTier(row.targetTier), VerificationFlags(row.pipelineStage);
    if tier.None? then Err(UnmappableTier)
    else if TierIdMismatch(row) then Err(TierIdDiffers)
    else if flags.None? then Err(UnsupportedPipelineStage)
    else
      Ok(Draft(
        StaticRecord(row.id, d.session(row.instanceId), row.stepIndex, InferTurnType(Roles(row.messages), 0),
                     d.prefix(row.messages), (CharCount(row.messages) + 3) / 4,
                     tier.value, ModelIdForTier(tier.value),
                     flags.value.verifiedToolProgression, flags.value.downgradeCascadeVerified,
                     if row.benchmark == "swebench" then SweBenchVerified else Custom,
                     None, None, None),
        row.stepIndex, row.instanceId, Roles(row.messages)))
  }

  // ---------------------------------------------------------------------------
  // Assembly
  // ---------------------------------------------------------------------------

  function DraftKey(): Draft -> string { (d: Draft) => d.record.sessionIdHash }

  predicate UpstreamLeq(a: Draft, b: Draft) { a.upstreamStepIndex <= b.upstreamStepIndex }

  function Reindexed(d: Draft, i: nat): StaticRecord {
    d.record.(stepIndex := i, turnType := InferTurnType(d.messageRoles, i))
  }

  function ReindexAll(drafts: seq<Draft>): (r: seq<StaticRecord>)
    ensures |r| == |drafts|
    ensures forall i | 0 <= i < |drafts| :: r[i] == Reindexed(drafts[i], i)
  {
    seq(|drafts|, i requires 0 <= i < |drafts| => Reindexed(drafts[i], i))
  }

  /** One session's drafts in upstream order, ties in input order. */
  function SessionDrafts(drafts: seq<Draft>, hash: string): seq<Draft> {
    Sort(Members(drafts, DraftKey(), hash), UpstreamLeq)
  }

  function SessionRecords(drafts: seq<Draft>, hash: string): seq<StaticRecord> { ReindexAll(SessionDrafts(drafts, hash)) }

  function FlatRecords(order: seq<string>, drafts: seq<Draft>): seq<StaticRecord> {
    if |order| == 0 then []
    else FlatRecords(order[..|order| - 1], drafts) + SessionRecords(drafts, order[|order| - 1])
  }

  function AssembledRecords(drafts: seq<Draft>): seq<StaticRecord> { FlatRecords(KeyOrder(drafts, DraftKey()), drafts) }

  datatype IngestError = NoConvertibleRows | InvalidQuotaLimit | SchemaMismatch(line: nat) | EmptyInput

  /** Groups drafts by session, sorts each group and numbers it from 0. */
  method AssembleStaticTrack(drafts: seq<Draft>, catalog: FrozenCatalog) returns (r: Result<StaticTrack, IngestError>)
    ensures r == if |drafts| == 0 then Err(NoConvertibleRows) else Ok(StaticTrack(catalog, AssembledRecords(drafts)))
  {
    if |drafts| == 0 {
      return Err(NoConvertibleRows);
    }
    var order, bySession := GroupInOrder(drafts, DraftKey());
    var records := [];
    var s := 0;
    while s < |order|
      invariant 0 <= s <= |order|
      invariant records == FlatRecords(order[..s], drafts)
    {
      assert order[..s + 1][..s] == order[..s];
      assert order[s] in order;
      records := AppendSession(records, Sort(bySession[order[s]], UpstreamLeq));
      s := s + 1;
    }
    assert order[..|order|] == order;
    return Ok(StaticTrack(catalog, records));
  }

  /** The inner loop: one sorted session renumbered and pushed. */
  method AppendSession(before: seq<StaticRecord>, sorted: seq<Draft>) returns (records: seq<StaticRecord>)
    ensures records == before + ReindexAll(sorted)
  {
    records := before;
    var i := 0;
    while i < |sorted|
      invariant 0 <= i <= |sorted|
      invariant records == before + ReindexAll(sorted)[..i]
    {
      records := records + [Reindexed(sorted[i], i)];
      i := i + 1;
    }
  }

  // ---------------------------------------------------------------------------
  // Quotas
  // ---------------------------------------------------------------------------

  const CODE_TOOL_BENCHMARKS: seq<string> := ["swebench", "bfcl", "pinchbench"]

  predicate IsCodeTool(benchmark: string) { benchmark in CODE_TOOL_BENCHMARKS }

  function BenchmarkIndex(benchmark: string): nat {
    if benchmark == "swebench" then 0 else if benchmark == "bfcl" then 1 else 2
  }

  function Share(limit: int, i: nat): int {
    limit / |CODE_TOOL_BENCHMARKS| + if i < limit % |CODE_TOOL_BENCHMARKS| then 1 else 0
  }

  /** A benchmark's share of the limit; earlier benchmarks take the remainder. */
  function Quota(limit: int, benchmark: string): int {
    if IsCodeTool(benchmark) then Share(limit, BenchmarkIndex(benchmark)) else 0
  }

  lemma BenchmarksAt(i: nat)
    requires i < |CODE_TOOL_BENCHMARKS|
    ensures BenchmarkIndex(CODE_TOOL_BENCHMARKS[i]) == i
  {
    assert |"swebench"| != |"bfcl"| && |"bfcl"| != |"pinchbench"| && |"swebench"| != |"pinchbench"|;
  }

  method AllocateCodeToolQuotas(limit: int) returns (r: Result<map<string, int>, IngestError>)
    ensures limit < 1 ==> r == Err(InvalidQuotaLimit)
    ensures limit >= 1 ==> r.Ok? && forall b :: b in r.value <==> IsCodeTool(b)
    ensures limit >= 1 ==> forall b | IsCodeTool(b) :: r.value[b] == Quota(limit, b)
  {
    if limit < 1 {
      return Err(InvalidQuotaLimit);
    }
    var base, rem := limit / |CODE_TOOL_BENCHMARKS|, limit % |CODE_TOOL_BENCHMARKS|;
    var quotas: map<string, int> := map[];
    var i := 0;
    while i < |CODE_TOOL_BENCHMARKS|
      invariant 0 <= i <= |CODE_TOOL_BENCHMARKS|
      invariant forall b :: b in quotas <==> b in CODE_TOOL_BENCHMARKS[..i]
      invariant forall b | b in quotas :: quotas[b] == Quota(limit, b)
    {
      BenchmarksAt(i);
      assert CODE_TOOL_BENCHMARKS[..i + 1] == CODE_TOOL_BENCHMARKS[..i] + [CODE_TOOL_BENCHMARKS[i]];
      quotas := quotas[CODE_TOOL_BENCHMARKS[i] := base + if i < rem then 1 else 0];
      i := i + 1;
    }
    assert CODE_TOOL_BENCHMARKS[..|CODE_TOOL_BENCHMARKS|] == CODE_TOOL_BENCHMARKS;
    return Ok(quotas);
  }

  /** Quotas share out the limit exactly, none is negative, and they differ by at most one. */
  lemma QuotasShareLimit(limit: int)
    requires limit >= 1
    ensures Quota(limit, "swebench") + Quota(limit, "bfcl") + Quota(limit, "pinchbench") == limit
    ensures forall a, b | IsCodeTool(a) && IsCodeTool(b) :: 0 <= Quota(limit, a) <= Quota(limit, b) + 1
  {
    BenchmarksAt(0);
    BenchmarksAt(1);
    BenchmarksAt(2);
    assert CODE_TOOL_BENCHMARKS[0] == "swebench" && CODE_TOOL_BENCHMARKS[1] == "bfcl" && CODE_TOOL_BENCHMARKS[2] == "pinchbench";
  }
}
