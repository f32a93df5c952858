/** Disagreements put to a panel of three, and the resolved rows appended to the packs. */
module Adjudication {
  import opened Wrappers
  import opened Labelling
  import opened Panel
  import LabelCampaign

  type Disagreement = LabelCampaign.Disagreement

  datatype Generation = Generation(taskId: string, clientId: string, responseText: string, providerModel: string)

  datatype Reason =
    | TaskMissing | GeneratorMissing | StoredGenerationMissing | GenerationFailed | EmptyRegeneration
    | PanelTooSmall(seated: nat) | PanelClientMissing(id: string) | AllPanelistsFailed | NoPanelMajority

  datatype ResolvedEntry = ResolvedEntry(
    taskId: string, generatorId: string, generatorModel: string, panelistScores: seq<GraderScore>,
    success: bool, judgeScore: real, holdout: bool, row: LabelRow)

  datatype ResidualEntry = ResidualEntry(
    taskId: string, generatorId: string, reason: Reason, panelistScores: Option<seq<GraderScore>>, original: seq<GraderScore>)

  datatype Settlement = Resolved(entry: ResolvedEntry) | Residual(left: ResidualEntry)

  /** What one disagreement adds to the three output lists. */
  datatype Step = Step(generation: Option<Generation>, settlement: Settlement)

  datatype Adjudicated = Adjudicated(resolved: seq<ResolvedEntry>, residual: seq<ResidualEntry>, generations: seq<Generation>)

  /** Errors the loop does not catch: they end the whole run. */
  datatype Abort = InvalidGeneratorId(id: string) | HoldoutUnassignable | RowRejected(sampleId: string)

  datatype Docket = Docket(
    disagreements: seq<Disagreement>, tasks: map<string, Task>, generators: set<string>, generatorModels: map<string, string>,
    pool: seq<ModelRef>, fill: seq<ModelRef>, graders: set<string>,
    seed: string, holdoutPercent: real, passScore: real, requireStored: bool,
    stored: (string, string) -> Option<string>, generate: nat -> Option<string>, grade: (nat, string) -> Option<int>,
    digest: SessionDigest, sampleId: (string, string) -> string, acceptsRow: LabelRow -> bool)

  // ---------------------------------------------------------------------------
  // One disagreement
  // ---------------------------------------------------------------------------

  function LeftOver(d: Disagreement, reason: Reason): Settlement {
    Residual(ResidualEntry(d.taskId, d.generatorId, reason, None, d.graderScores))
  }

  /** A stored response when there is one, else a fresh one unless only stored ones are allowed. */
  function ResponseFor(a: Docket, i: nat): Result<string, Reason>
    requires i < |a.disagreements|
  {
    var d := a.disagreements[i];
    var stored := a.stored(d.taskId, d.generatorId);
    if stored.Some? && !IsBlank(stored.value) then Ok(stored.value)
    else if a.requireStored then Err(StoredGenerationMissing)
    else
      match a.generate(i)
      case None => Err(GenerationFailed)
      case Some(text) => if IsBlank(text) then Err(EmptyRegeneration) else Ok(text)
  }

  /** Scores of the panelists that answered; the first one without a client stops the panel. */
  function PanelScores(a: Docket, i: nat, panel: seq<ModelRef>): Result<seq<GraderScore>, string> {
    if |panel| == 0 then Ok([])
    else
      var id := panel[|panel| - 1].id;
      match PanelScores(a, i, panel[..|panel| - 1])
      case Err(missing) => Err(missing)
      case Ok(scores) =>
        if id !in a.graders then Err(id)
        else
          match NormalizeGraderScore(a.grade(i, id))
          case None => Ok(scores)
          case Some(score) => Ok(scores + [GraderScore(id, score)])
  }

  method ScorePanel(a: Docket, i: nat, panel: seq<ModelRef>) returns (r: Result<seq<GraderScore>, string>)
    ensures r == PanelScores(a, i, panel)
  {
    var scores := [];
    var p := 0;
    while p < |panel|
      invariant 0 <= p <= |panel|
      invariant PanelScores(a, i, panel[..p]) == Ok(scores)
    {
      var id := panel[p].id;
      assert panel[..p + 1][..p] == panel[..p];
      if id !in a.graders {
        MissingStops(a, i, panel, p + 1);
        return Err(id);
      }
      var score := NormalizeGraderScore(a.grade(i, id));
      if score.Some? {
        scores := scores + [GraderScore(id, score.value)];
      }
      p := p + 1;
    }
    assert panel[..p] == panel;
    return Ok(scores);
  }

  lemma {:induction false} MissingStops(a: Docket, i: nat, panel: seq<ModelRef>, p: nat)
    requires p <= |panel| && PanelScores(a, i, panel[..p]).Err?
    ensures PanelScores(a, i, panel) == PanelScores(a, i, panel[..p])
    decreases |panel|
  {
    if p < |panel| {
      assert panel[..|panel| - 1][..p] == panel[..p];
      MissingStops(a, i, panel[..|panel| - 1], p);
    } else {
      assert panel[..p] == panel;
    }
  }

  function ScoreIds(scores: seq<GraderScore>): (ids: seq<string>)
    ensures |ids| == |scores| && forall i | 0 <= i < |ids| :: ids[i] == scores[i].graderId
  {
    LabelCampaign.GraderIds(scores)
  }

  function AdjudicatedRow(a: Docket, task: Task, generatorId: string, scores: seq<GraderScore>, d: Decision, holdout: bool): LabelRow {
    LabelRow(a.sampleId(task.taskId, generatorId), task.features, d.success, task.tier,
      [LlmJudge, PanelAdjudication, PanelMajority, GeneratorSignal(generatorId)]
      + LabelCampaign.GraderSignals(ScoreIds(scores)) + [JudgeScore(d.judgeScore)]
      + (if d.success then [] else [FailureScore(d.judgeScore)])
      + [if holdout then SessionHoldout else SessionFit])
  }

  /** The end of the loop body: from the scores cast to a row or a residual. */
  function Conclude(a: Docket, d: Disagreement, task: Task, model: string, scores: seq<GraderScore>): Result<Settlement, Abort> {
    if |scores| == 0 then Ok(LeftOver(d, AllPanelistsFailed))
    else
      match Majority(scores, a.passScore)
      case None => Ok(Residual(ResidualEntry(d.taskId, d.generatorId, NoPanelMajority, Some(scores), d.graderScores)))
      case Some(decision) =>
        match AssignSessionHoldout(task.sessionId, a.seed, a.holdoutPercent, a.digest)
        case None => Err(HoldoutUnassignable)
        case Some(holdout) =>
          var row := AdjudicatedRow(a, task, d.generatorId, scores, decision, holdout);
          if !a.acceptsRow(row) then Err(RowRejected(row.sampleId))
          else Ok(Resolved(ResolvedEntry(
            d.taskId, d.generatorId, model, scores, decision.success, decision.judgeScore, holdout, row)))
  }

  /** Asks the panel about one response. */
  function Hearing(a: Docket, i: nat, task: Task, model: string): Result<Settlement, Abort>
    requires i < |a.disagreements|
  {
    var d := a.disagreements[i];
    match SelectedPanel(model, a.pool, a.fill, MIN_PANEL_SIZE)
    case Err(seated) => Ok(LeftOver(d, PanelTooSmall(seated)))
    case Ok(panel) =>
      if !ValidClientId(d.generatorId) then Err(InvalidGeneratorId(d.generatorId))
      else
        match PanelScores(a, i, panel)
        case Err(id) => Ok(LeftOver(d, PanelClientMissing(id)))
        case Ok(scores) => Conclude(a, d, task, model, scores)
  }

  function Settle(a: Docket, i: nat): Result<Step, Abort>
    requires i < |a.disagreements|
  {
    var d := a.disagreements[i];
    if d.taskId !in a.tasks then Ok(Step(None, LeftOver(d, TaskMissing)))
    else if d.generatorId !in a.generators || d.generatorId !in a.generatorModels then Ok(Step(None, LeftOver(d, GeneratorMissing)))
    else
      var task, model := a.tasks[d.taskId], a.generatorModels[d.generatorId];
      match ResponseFor(a, i)
      case Err(reason) => Ok(Step(None, LeftOver(d, reason)))
      case Ok(text) =>
        match Hearing(a, i, task, model)
        case Err(e) => Err(e)
        case Ok(settlement) => Ok(Step(Some(Generation(task.taskId, d.generatorId, text, model)), settlement))
  }

  /** Steps of the first n disagreements, or the abort that ended the run. */
  function Steps(a: Docket, n: nat): (r: Result<seq<Step>, Abort>)
    requires n <= |a.disagreements|
    ensures r.Ok? ==> |r.value| == n
  {
    if n == 0 then Ok([])
    else
      match Steps(a, n - 1)
      case Err(e) => Err(e)
      case Ok(before) =>
        match Settle(a, n - 1)
        case Err(e) => Err(e)
        case Ok(step) => Ok(before + [step])
  }

  function Recorded(before: Adjudicated, step: Step): Adjudicated {
    var generations := if step.generation.Some? then before.generations + [step.generation.value] else before.generations;
    match step.settlement
    case Resolved(entry) => Adjudicated(before.resolved + [entry], before.residual, generations)
    case Residual(left) => Adjudicated(before.resolved, before.residual + [left], generations)
  }

  function Gathered(steps: seq<Step>): Adjudicated {
    if |steps| == 0 then Adjudicated([], [], []) else Recorded(Gathered(steps[..|steps| - 1]), steps[|steps| - 1])
  }

  function ResultAt(a: Docket, n: nat): Result<Adjudicated, Abort>
    requires n <= |a.disagreements|
  {
    match Steps(a, n)
    case Err(e) => Err(e)
    case Ok(steps) => Ok(Gathered(steps))
  }

  method ConcludeHearing(a: Docket, d: Disagreement, task: Task, model: string, scores: seq<GraderScore>)
    returns (r: Result<Settlement, Abort>)
    ensures r == Conclude(a, d, task, model, scores)
  {
    if |scores| == 0 {
      return Ok(LeftOver(d, AllPanelistsFailed));
    }
    var decision := MajorityDecision(scores, a.passScore);
    if decision.None? {
      return Ok(Residual(ResidualEntry(d.taskId, d.generatorId, NoPanelMajority, Some(scores), d.graderScores)));
    }
    var holdout := AssignSessionHoldout(task.sessionId, a.seed, a.holdoutPercent, a.digest);
    if holdout.None? {
      return Err(HoldoutUnassignable);
    }
    var row := AdjudicatedRow(a, task, d.generatorId, scores, decision.value, holdout.value);
    if !a.acceptsRow(row) {
      return Err(RowRejected(row.sampleId));
    }
    return Ok(Resolved(ResolvedEntry(
      d.taskId, d.generatorId, model, scores, decision.value.success, decision.value.judgeScore, holdout.value, row)));
  }

  method HearPanel(a: Docket, i: nat, task: Task, model: string) returns (r: Result<Settlement, Abort>)
    requires i < |a.disagreements|
    ensures r == Hearing(a, i, task, model)
  {
    var d := a.disagreements[i];
    var panel := SelectPanelForGenerator(model, a.pool, a.fill, MIN_PANEL_SIZE);
    if panel.Err? {
      return Ok(LeftOver(d, PanelTooSmall(panel.error)));
    }
    if !ValidClientId(d.generatorId) {
      return Err(InvalidGeneratorId(d.generatorId));
    }
    var scores := ScorePanel(a, i, panel.value);
    if scores.Err? {
      return Ok(LeftOver(d, PanelClientMissing(scores.error)));
    }
    r := ConcludeHearing(a, d, task, model, scores.value);
  }

  method SettleOne(a: Docket, i: nat) returns (r: Result<Step, Abort>)
    requires i < |a.disagreements|
    ensures r == Settle(a, i)
  {
    var d := a.disagreements[i];
    if d.taskId !in a.tasks {
      return Ok(Step(None, LeftOver(d, TaskMissing)));
    }
    if d.generatorId !in a.generators || d.generatorId !in a.generatorModels {
      return Ok(Step(None, LeftOver(d, GeneratorMissing)));
    }
    var task, model := a.tasks[d.taskId], a.generatorModels[d.generatorId];
    var text := ResponseFor(a, i);
    if text.Err? {
      return Ok(Step(None, LeftOver(d, text.error)));
    }
    var settlement := HearPanel(a, i, task, model);
    if settlement.Err? {
      return Err(settlement.error);
    }
    return Ok(Step(Some(Generation(task.taskId, d.generatorId, text.value, model)), settlement.value));
  }

  lemma {:induction false} AbortStands(a: Docket, n: nat, m: nat)
    requires n <= m <= |a.disagreements| && Steps(a, n).Err?
    ensures Steps(a, m) == Steps(a, n)
  {
    if n < m {
      AbortStands(a, n, m - 1);
    }
  }

  lemma GatheredSnoc(steps: seq<Step>, step: Step)
    ensures Gathered(steps + [step]) == Recorded(Gathered(steps), step)
  {
    assert (steps + [step])[..|steps|] == steps;
  }

  lemma ResultGrows(a: Docket, i: nat, before: Adjudicated, r: Result<Step, Abort>)
    requires i < |a.disagreements| && ResultAt(a, i) == Ok(before) && r == Settle(a, i)
    ensures r.Ok? ==> ResultAt(a, i + 1) == Ok(Recorded(before, r.value))
    ensures r.Err? ==> ResultAt(a, |a.disagreements|) == Err(r.error)
  {
    if r.Ok? {
      GatheredSnoc(Steps(a, i).value, r.value);
    } else {
      AbortStands(a, i + 1, |a.disagreements|);
    }
  }

  method RunAdjudication(a: Docket) returns (r: Result<Adjudicated, Abort>)
    ensures r == ResultAt(a, |a.disagreements|)
  {
    var resolved, residual, generations := [], [], [];
    var i := 0;
    while i < |a.disagreements|
      invariant 0 <= i <= |a.disagreements|
      invariant ResultAt(a, i) == Ok(Adjudicated(resolved, residual, generations))
    {
      var step := SettleOne(a, i);
      ResultGrows(a, i, Adjudicated(resolved, residual, generations), step);
      if step.Err? {
        return Err(step.error);
      }
      if step.value.generation.Some? {
        generations := generations + [step.value.generation.value];
      }
      match step.value.settlement {
        case Resolved(entry) => resolved := resolved + [entry];
        case Residual(left) => residual := residual + [left];
      }
      i := i + 1;
    }
    return Ok(Adjudicated(resolved, residual, generations));
  }
}
