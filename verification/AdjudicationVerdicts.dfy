/** What the panel's answers make of a disagreement: the row it becomes, or why it stays open. */
module AdjudicationVerdicts {
  import opened Wrappers
  import opened Labelling
  import opened Panel
  import opened PanelSeating
  import opened Adjudication
  import opened AdjudicationEnds
  import opened AdjudicationTheorems
  import CampaignVerdicts
  import LabelCampaign

  // ---------------------------------------------------------------------------
  // Responses, panels and ballots
  // ---------------------------------------------------------------------------

  /** Something other than white space. */
  ghost predicate Says(text: string) { exists ch | ch in text :: !IsSpace(ch) }

  ghost predicate HasStored(a: Docket, i: nat)
    requires i < |a.disagreements|
  {
    var d := a.disagreements[i];
    a.stored(d.taskId, d.generatorId).Some? && Says(a.stored(d.taskId, d.generatorId).value)
  }

  /** The response under review: the stored one, else a fresh one where that is allowed. */
  ghost predicate ResponseIs(a: Docket, i: nat, text: string)
    requires i < |a.disagreements|
  {
    var d := a.disagreements[i];
    if HasStored(a, i) then a.stored(d.taskId, d.generatorId) == Some(text)
    else !a.requireStored && a.generate(i) == Some(text) && Says(text)
  }

  /** Three models seated first come, first seated from the pool and then the fill. */
  ghost predicate PanelIs(a: Docket, i: nat, panel: seq<ModelRef>)
    requires i < |a.disagreements| && Known(a, i)
  {
    |panel| == 3 && exists at :: FirstCome(panel, at, a.pool + a.fill, a.generatorModels[a.disagreements[i].generatorId], 3)
  }

  /** A panelist's ballot: its grade when that is an integer from 0 to 9. */
  ghost function Ballot(a: Docket, i: nat, ref: ModelRef): seq<GraderScore> {
    match a.grade(i, ref.id)
    case Some(n) => if 0 <= n <= 9 then [GraderScore(ref.id, n)] else []
    case None => []
  }

  /** The ballots of three panelists, in their order. */
  ghost function Ballots(a: Docket, i: nat, panel: seq<ModelRef>): seq<GraderScore>
    requires |panel| == 3
  {
    Ballot(a, i, panel[0]) + Ballot(a, i, panel[1]) + Ballot(a, i, panel[2])
  }

  /** Two ballots on the passing side, or on the failing side. */
  ghost predicate TwoAgree(scores: seq<GraderScore>, passScore: real, success: bool) {
    exists j, k | 0 <= j < k < |scores| :: OnSide(scores[j], passScore, success) && OnSide(scores[k], passScore, success)
  }

  ghost predicate OnSide(s: GraderScore, passScore: real, success: bool) { s.score as real >= passScore <==> success }

  /** The first panelist without a client. */
  ghost predicate FirstMissing(a: Docket, panel: seq<ModelRef>, id: string) {
    exists k | 0 <= k < |panel| :: panel[k].id == id && id !in a.graders && forall j | 0 <= j < k :: panel[j].id in a.graders
  }

  lemma ScoresSnoc(a: Docket, i: nat, panel: seq<ModelRef>, ref: ModelRef)
    ensures PanelScores(a, i, panel + [ref]) ==
      match PanelScores(a, i, panel)
      case Err(missing) => Err(missing)
      case Ok(scores) => if ref.id in a.graders then Ok(scores + Ballot(a, i, ref)) else Err(ref.id)
  {
    assert (panel + [ref])[..|panel|] == panel;
    assert forall scores: seq<GraderScore> :: scores + [] == scores;
  }

  lemma BallotsOfThree(a: Docket, i: nat, x: ModelRef, y: ModelRef, z: ModelRef)
    ensures PanelScores(a, i, [x, y, z]) ==
      if x.id !in a.graders then Err(x.id)
      else if y.id !in a.graders then Err(y.id)
      else if z.id !in a.graders then Err(z.id)
      else Ok(Ballot(a, i, x) + Ballot(a, i, y) + Ballot(a, i, z))
  {
    assert [] + [x] == [x] && [x] + [y] == [x, y] && [x, y] + [z] == [x, y, z];
    ScoresSnoc(a, i, [], x);
    ScoresSnoc(a, i, [x], y);
    ScoresSnoc(a, i, [x, y], z);
    assert [] + Ballot(a, i, x) == Ballot(a, i, x);
  }

  lemma ScoresOfThree(a: Docket, i: nat, panel: seq<ModelRef>)
    requires |panel| == 3
    ensures PanelScores(a, i, panel).Ok? <==> forall p | p in panel :: p.id in a.graders
    ensures PanelScores(a, i, panel).Ok? ==> PanelScores(a, i, panel).value == Ballots(a, i, panel)
    ensures PanelScores(a, i, panel).Err? ==> FirstMissing(a, panel, PanelScores(a, i, panel).error)
  {
    assert panel == [panel[0], panel[1], panel[2]];
    BallotsOfThree(a, i, panel[0], panel[1], panel[2]);
  }

  lemma VotesOfTwo(scores: seq<GraderScore>, passScore: real)
    requires |scores| == 2
    ensures PassVotes(scores, passScore) ==
      (if scores[0].score as real >= passScore then 1 else 0) + (if scores[1].score as real >= passScore then 1 else 0)
  {
    assert scores[..1][..0] == [] && scores == scores[..1] + [scores[1]];
    assert PassVotes(scores[..1], passScore) == if scores[0].score as real >= passScore then 1 else 0;
  }

  lemma VotesOfThree(scores: seq<GraderScore>, passScore: real)
    requires |scores| == 3
    ensures PassVotes(scores, passScore) ==
      (if scores[0].score as real >= passScore then 1 else 0) + (if scores[1].score as real >= passScore then 1 else 0)
      + (if scores[2].score as real >= passScore then 1 else 0)
  {
    VotesOfTwo(scores[..2], passScore);
  }

  /** Up to three ballots decide exactly when two of them agree, the way those two say, with the mean to the nearest tenth. */
  lemma MajorityIsAgreement(scores: seq<GraderScore>, passScore: real)
    requires |scores| <= 3
    ensures Majority(scores, passScore).Some? <==> TwoAgree(scores, passScore, true) || TwoAgree(scores, passScore, false)
    ensures Majority(scores, passScore).Some? ==>
      var d := Majority(scores, passScore).value;
      2 <= |scores| && TwoAgree(scores, passScore, d.success) && CampaignVerdicts.NearestTenth(d.judgeScore, scores)
  {
    if |scores| == 2 {
      VotesOfTwo(scores, passScore);
      CampaignVerdicts.MeanIsNearestTenth(scores);
    } else if |scores| == 3 {
      VotesOfThree(scores, passScore);
      CampaignVerdicts.MeanIsNearestTenth(scores);
    }
  }

  /** Two ballots on each side would take four. */
  lemma OneSideOnly(scores: seq<GraderScore>, passScore: real)
    requires |scores| <= 3
    ensures !(TwoAgree(scores, passScore, true) && TwoAgree(scores, passScore, false))
  {
  }

  // ---------------------------------------------------------------------------
  // The row
  // ---------------------------------------------------------------------------

  /** The signals in order: provenance, generator, graders, score, failure, partition. */
  ghost predicate SignalsHold(signals: seq<Signal>, generator: string, scores: seq<GraderScore>,
      success: bool, judgeScore: real, holdout: bool)
  {
    var n := |scores|;
    && |signals| == n + 6 + (if success then 0 else 1)
    && signals[0] == LlmJudge && signals[1] == PanelAdjudication && signals[2] == PanelMajority && signals[3] == GeneratorSignal(generator)
    && (forall j | 0 <= j < n :: signals[j + 4] == GraderSignal(scores[j].graderId))
    && signals[n + 4] == JudgeScore(judgeScore)
    && (!success ==> signals[n + 5] == FailureScore(judgeScore))
    && signals[|signals| - 1] == if holdout then SessionHoldout else SessionFit
  }

  lemma SignalsInOrder(signals: seq<Signal>, first: seq<Signal>, graders: seq<Signal>, score: Signal, failure: seq<Signal>, tag: Signal)
    requires |first| == 4 && |failure| <= 1 && signals == first + graders + [score] + failure + [tag]
    ensures var n := |graders|;
      && |signals| == n + 6 + |failure| && signals[..4] == first
      && (forall j | 0 <= j < n :: signals[j + 4] == graders[j])
      && signals[n + 4] == score && (|failure| == 1 ==> signals[n + 5] == failure[0]) && signals[|signals| - 1] == tag
  {
  }

  /** The row speaks for its task and generator, for the panelists that answered and for their scores. */
  ghost predicate RowHolds(a: Docket, task: Task, generator: string, scores: seq<GraderScore>, d: Decision, holdout: bool, row: LabelRow) {
    && row.sampleId == a.sampleId(task.taskId, generator) && row.features == task.features && row.tier == task.tier
    && row.success == d.success && SignalsHold(row.signals, generator, scores, d.success, d.judgeScore, holdout)
  }

  lemma SignalsAre(signals: seq<Signal>, generator: string, scores: seq<GraderScore>, graders: seq<Signal>, failure: seq<Signal>,
      tag: Signal, success: bool, judgeScore: real, holdout: bool)
    requires |graders| == |scores| && forall j | 0 <= j < |scores| :: graders[j] == GraderSignal(scores[j].graderId)
    requires failure == if success then [] else [FailureScore(judgeScore)]
    requires tag == if holdout then SessionHoldout else SessionFit
    requires signals ==
      [LlmJudge, PanelAdjudication, PanelMajority, GeneratorSignal(generator)] + graders + [JudgeScore(judgeScore)] + failure + [tag]
    ensures SignalsHold(signals, generator, scores, success, judgeScore, holdout)
  {
    var first := [LlmJudge, PanelAdjudication, PanelMajority, GeneratorSignal(generator)];
    SignalsInOrder(signals, first, graders, JudgeScore(judgeScore), failure, tag);
    assert forall j | 0 <= j < 4 :: signals[j] == signals[..4][j];
  }

  lemma BuiltRowHolds(a: Docket, task: Task, generator: string, scores: seq<GraderScore>, d: Decision, holdout: bool)
    ensures RowHolds(a, task, generator, scores, d, holdout, AdjudicatedRow(a, task, generator, scores, d, holdout))
  {
    SignalsAre(AdjudicatedRow(a, task, generator, scores, d, holdout).signals, generator, scores,
      LabelCampaign.GraderSignals(ScoreIds(scores)), if d.success then [] else [FailureScore(d.judgeScore)],
      if holdout then SessionHoldout else SessionFit, d.success, d.judgeScore, holdout);
  }

  // ---------------------------------------------------------------------------
  // One disagreement
  // ---------------------------------------------------------------------------

  lemma SaysIff(text: string)
    ensures IsBlank(text) <==> !Says(text)
  {
  }

  lemma ResponseIff(a: Docket, i: nat, text: string)
    requires i < |a.disagreements|
    ensures ResponseFor(a, i) == Ok(text) <==> ResponseIs(a, i, text)
  {
    SaysIff(text);
  }

  lemma PanelIff(a: Docket, i: nat, panel: seq<ModelRef>)
    requires i < |a.disagreements| && Known(a, i)
    ensures PanelFor(a, i) == Ok(panel) <==> PanelIs(a, i, panel)
  {
    PanelIsFirstCome(a.generatorModels[a.disagreements[i].generatorId], a.pool, a.fill, 3, panel);
  }

  /** There is a response to judge and a panel to judge it. */
  ghost predicate Empanelled(a: Docket, i: nat, panel: seq<ModelRef>)
    requires i < |a.disagreements|
  {
    Known(a, i) && (exists text :: ResponseIs(a, i, text)) && PanelIs(a, i, panel)
  }

  /** The panel was asked: the generator's id is well formed and every panelist has a client. */
  ghost predicate Heard(a: Docket, i: nat, panel: seq<ModelRef>)
    requires i < |a.disagreements|
  {
    && Empanelled(a, i, panel) && CampaignVerdicts.PlainId(a.disagreements[i].generatorId)
    && forall p | p in panel :: p.id in a.graders
  }

  /** Two of two or three scores are on this side, and the mean of all of them is the judge score. */
  ghost predicate Favours(scores: seq<GraderScore>, passScore: real, success: bool, judgeScore: real) {
    2 <= |scores| <= 3 && TwoAgree(scores, passScore, success) && CampaignVerdicts.NearestTenth(judgeScore, scores)
  }

  /** What a resolved entry holds: the side two panelists took, their mean, and the session's partition. */
  ghost predicate EntryHolds(a: Docket, d: Disagreement, task: Task, model: string, scores: seq<GraderScore>, e: ResolvedEntry) {
    && e.taskId == d.taskId && e.generatorId == d.generatorId && e.generatorModel == model
    && e.panelistScores == scores && Favours(scores, a.passScore, e.success, e.judgeScore)
    && |task.sessionId| > 0 && (e.holdout <==> (a.digest(a.seed, task.sessionId) % 100) as real < a.holdoutPercent)
    && RowHolds(a, task, d.generatorId, scores, Decision(e.success, e.judgeScore), e.holdout, e.row) && a.acceptsRow(e.row)
  }

  /** What a residual's reason says of its disagreement; only a panel without a majority leaves scores. */
  ghost predicate ReasonHolds(a: Docket, i: nat, reason: Reason, scores: Option<seq<GraderScore>>)
    requires i < |a.disagreements|
  {
    var d := a.disagreements[i];
    && (scores.Some? <==> reason == NoPanelMajority)
    && match reason
       case TaskMissing => d.taskId !in a.tasks
       case GeneratorMissing => d.taskId in a.tasks && (d.generatorId !in a.generators || d.generatorId !in a.generatorModels)
       case StoredGenerationMissing => Known(a, i) && !HasStored(a, i) && a.requireStored
       case GenerationFailed => Known(a, i) && !HasStored(a, i) && !a.requireStored && a.generate(i).None?
       case EmptyRegeneration =>
         Known(a, i) && !HasStored(a, i) && !a.requireStored && a.generate(i).Some? && !Says(a.generate(i).value)
       case PanelTooSmall(seated) => Known(a, i) && (exists text :: ResponseIs(a, i, text)) && ShortPanel(a, i, seated)
       case PanelClientMissing(id) => exists panel :: Empanelled(a, i, panel) && FirstMissing(a, panel, id)
       case AllPanelistsFailed => exists panel :: Heard(a, i, panel) && Ballots(a, i, panel) == []
       case NoPanelMajority =>
         exists panel ::
           Heard(a, i, panel) && scores == Some(Ballots(a, i, panel)) && |scores.value| > 0 && Undecided(scores.value, a.passScore)
  }

  ghost predicate Undecided(scores: seq<GraderScore>, passScore: real) {
    !TwoAgree(scores, passScore, true) && !TwoAgree(scores, passScore, false)
  }

  ghost predicate ShortPanel(a: Docket, i: nat, seated: nat)
    requires i < |a.disagreements| && Known(a, i)
  {
    exists panel, at ::
      |panel| == seated < 3 && FirstCome(panel, at, a.pool + a.fill, a.generatorModels[a.disagreements[i].generatorId], 3)
  }

  /** What a settled disagreement's outcome says. */
  ghost predicate OutcomeHolds(a: Docket, i: nat, s: Settlement)
    requires i < |a.disagreements|
  {
    match s
    case Resolved(e) =>
      var d := a.disagreements[i];
      exists panel ::
        Heard(a, i, panel) && EntryHolds(a, d, a.tasks[d.taskId], a.generatorModels[d.generatorId], Ballots(a, i, panel), e)
    case Residual(l) =>
      && l.taskId == a.disagreements[i].taskId && l.generatorId == a.disagreements[i].generatorId
      && l.original == a.disagreements[i].graderScores && ReasonHolds(a, i, l.reason, l.panelistScores)
  }

  lemma ConcludedOn(a: Docket, d: Disagreement, task: Task, model: string, scores: seq<GraderScore>, e: ResolvedEntry)
    requires Conclude(a, d, task, model, scores) == Ok(Resolved(e))
    ensures Majority(scores, a.passScore) == Some(Decision(e.success, e.judgeScore))
    ensures AssignSessionHoldout(task.sessionId, a.seed, a.holdoutPercent, a.digest) == Some(e.holdout)
    ensures e.taskId == d.taskId && e.generatorId == d.generatorId && e.generatorModel == model && e.panelistScores == scores
    ensures e.row == AdjudicatedRow(a, task, d.generatorId, scores, Decision(e.success, e.judgeScore), e.holdout) && a.acceptsRow(e.row)
  {
  }

  lemma ConcludedRow(a: Docket, d: Disagreement, task: Task, model: string, scores: seq<GraderScore>, e: ResolvedEntry)
    requires Conclude(a, d, task, model, scores) == Ok(Resolved(e))
    ensures RowHolds(a, task, d.generatorId, scores, Decision(e.success, e.judgeScore), e.holdout, e.row)
  {
    ConcludedOn(a, d, task, model, scores, e);
    BuiltRowHolds(a, task, d.generatorId, scores, Decision(e.success, e.judgeScore), e.holdout);
  }

  lemma ConcludedFavours(a: Docket, d: Disagreement, task: Task, model: string, scores: seq<GraderScore>, e: ResolvedEntry)
    requires |scores| <= 3 && Conclude(a, d, task, model, scores) == Ok(Resolved(e))
    ensures Favours(scores, a.passScore, e.success, e.judgeScore)
  {
    ConcludedOn(a, d, task, model, scores, e);
    MajorityIsAgreement(scores, a.passScore);
  }

  lemma ConcludedEntry(a: Docket, d: Disagreement, task: Task, model: string, scores: seq<GraderScore>, e: ResolvedEntry)
    requires |scores| <= 3 && Conclude(a, d, task, model, scores) == Ok(Resolved(e))
    ensures EntryHolds(a, d, task, model, scores, e)
  {
    ConcludedRow(a, d, task, model, scores, e);
    ConcludedFavours(a, d, task, model, scores, e);
    ConcludedOn(a, d, task, model, scores, e);
  }

  /** What a residual of the panel's says of the scores it was left with. */
  ghost predicate LeftWith(d: Disagreement, scores: seq<GraderScore>, passScore: real, l: ResidualEntry) {
    && l.taskId == d.taskId && l.generatorId == d.generatorId && l.original == d.graderScores && Undecided(scores, passScore)
    && if scores == [] then l.reason == AllPanelistsFailed && l.panelistScores.None?
       else l.reason == NoPanelMajority && l.panelistScores == Some(scores)
  }

  lemma ConcludedResidual(a: Docket, d: Disagreement, task: Task, model: string, scores: seq<GraderScore>, l: ResidualEntry)
    requires |scores| <= 3 && Conclude(a, d, task, model, scores) == Ok(Residual(l))
    ensures LeftWith(d, scores, a.passScore, l)
  {
    MajorityIsAgreement(scores, a.passScore);
  }

  lemma HeardOutcome(a: Docket, i: nat, panel: seq<ModelRef>, s: Settlement)
    requires i < |a.disagreements| && Heard(a, i, panel)
    requires var d := a.disagreements[i];
      Conclude(a, d, a.tasks[d.taskId], a.generatorModels[d.generatorId], Ballots(a, i, panel)) == Ok(s)
    ensures OutcomeHolds(a, i, s)
    ensures s.Resolved? <==> !Undecided(Ballots(a, i, panel), a.passScore)
  {
    var d, scores := a.disagreements[i], Ballots(a, i, panel);
    match s
    case Resolved(e) => ConcludedEntry(a, d, a.tasks[d.taskId], a.generatorModels[d.generatorId], scores, e);
    case Residual(l) => ConcludedResidual(a, d, a.tasks[d.taskId], a.generatorModels[d.generatorId], scores, l);
  }

  lemma HearingOutcome(a: Docket, i: nat, s: Settlement)
    requires i < |a.disagreements| && Known(a, i) && exists text :: ResponseIs(a, i, text)
    requires var d := a.disagreements[i]; Hearing(a, i, a.tasks[d.taskId], a.generatorModels[d.generatorId]) == Ok(s)
    ensures OutcomeHolds(a, i, s)
    ensures s.Resolved? <==> Decided(a, i)
  {
    var d := a.disagreements[i];
    var selected := PanelFor(a, i);
    if selected.Err? {
      ShortPanelIsFirstCome(a.generatorModels[d.generatorId], a.pool, a.fill, 3);
      NoPanelIsDecided(a, i);
    } else {
      var panel := selected.value;
      PanelIff(a, i, panel);
      ScoresOfThree(a, i, panel);
      OnePanelDecides(a, i, panel);
      CampaignVerdicts.PlainIdIff(d.generatorId);
      if PanelScores(a, i, panel).Ok? {
        HeardOutcome(a, i, panel, s);
      }
    }
  }

  /** A response, a panel with clients, and two panelists who agree. */
  ghost predicate Decided(a: Docket, i: nat)
    requires i < |a.disagreements|
  {
    exists panel :: Heard(a, i, panel) && !Undecided(Ballots(a, i, panel), a.passScore)
  }

  lemma NoPanelIsDecided(a: Docket, i: nat)
    requires i < |a.disagreements| && Known(a, i) && PanelFor(a, i).Err?
    ensures !Decided(a, i)
  {
    forall panel ensures !PanelIs(a, i, panel) {
      PanelIff(a, i, panel);
    }
  }

  lemma OnePanelDecides(a: Docket, i: nat, panel: seq<ModelRef>)
    requires i < |a.disagreements| && Known(a, i) && PanelFor(a, i) == Ok(panel)
    ensures Decided(a, i) <==> Heard(a, i, panel) && !Undecided(Ballots(a, i, panel), a.passScore)
  {
    forall other ensures PanelIs(a, i, other) <==> other == panel {
      PanelIff(a, i, other);
    }
  }

  /**
   * What a settled disagreement becomes: a row exactly when it is known, answered and put to a full panel
   * of which two agree; anything else is set aside, for the reason that its own state gives.
   */
  lemma SettlementIsCalledFor(a: Docket, i: nat, s: Settlement)
    requires Settled(a, i, s)
    ensures OutcomeHolds(a, i, s)
    ensures s.Resolved? <==> Decided(a, i)
  {
    if Known(a, i) {
      forall text ensures ResponseFor(a, i) == Ok(text) <==> ResponseIs(a, i, text) {
        ResponseIff(a, i, text);
      }
      if ResponseFor(a, i).Ok? {
        HearingOutcome(a, i, s);
      } else {
        NoResponse(a, i, s);
      }
    }
  }

  lemma NoResponse(a: Docket, i: nat, s: Settlement)
    requires Settled(a, i, s) && Known(a, i) && ResponseFor(a, i).Err?
    ensures OutcomeHolds(a, i, s) && s.Residual?
  {
    var d := a.disagreements[i];
    if a.stored(d.taskId, d.generatorId).Some? {
      SaysIff(a.stored(d.taskId, d.generatorId).value);
    }
    if a.generate(i).Some? {
      SaysIff(a.generate(i).value);
    }
  }

  /** The response judged, kept under its task, its generator and the generator's model. */
  ghost predicate GenerationIs(a: Docket, i: nat, g: Generation)
    requires i < |a.disagreements|
  {
    var d := a.disagreements[i];
    && Known(a, i) && ResponseIs(a, i, g.responseText)
    && g.taskId == a.tasks[d.taskId].taskId && g.clientId == d.generatorId && g.providerModel == a.generatorModels[d.generatorId]
  }

  /** A settled disagreement keeps a generation exactly when it is known and has a response, whatever the panel makes of it. */
  lemma GenerationIsKept(a: Docket, i: nat)
    requires i < |a.disagreements| && Settle(a, i).Ok?
    ensures var kept := Settle(a, i).value.generation;
      && (kept.Some? <==> Known(a, i) && exists text :: ResponseIs(a, i, text))
      && (kept.Some? ==> GenerationIs(a, i, kept.value))
  {
    if Known(a, i) {
      forall text ensures ResponseFor(a, i) == Ok(text) <==> ResponseIs(a, i, text) {
        ResponseIff(a, i, text);
      }
    }
  }

  // ---------------------------------------------------------------------------
  // What ends the run
  // ---------------------------------------------------------------------------

  /** The row these scores call for is not accepted. */
  ghost predicate RowRefused(a: Docket, task: Task, generator: string, scores: seq<GraderScore>) {
    exists d: Decision, holdout, row ::
      && Favours(scores, a.passScore, d.success, d.judgeScore)
      && (holdout <==> (a.digest(a.seed, task.sessionId) % 100) as real < a.holdoutPercent)
      && RowHolds(a, task, generator, scores, d, holdout, row) && !a.acceptsRow(row)
  }

  /** Agreement that cannot be filed: no session, no percentage, or no acceptable row. */
  ghost predicate CannotBeFiled(a: Docket, task: Task, generator: string, scores: seq<GraderScore>) {
    && !Undecided(scores, a.passScore)
    && (|task.sessionId| == 0 || !(0.0 <= a.holdoutPercent <= 100.0) || RowRefused(a, task, generator, scores))
  }

  lemma OneRowHolds(a: Docket, task: Task, generator: string, scores: seq<GraderScore>, d: Decision, holdout: bool, row: LabelRow)
    requires RowHolds(a, task, generator, scores, d, holdout, row)
    ensures row == AdjudicatedRow(a, task, generator, scores, d, holdout)
  {
    var built := AdjudicatedRow(a, task, generator, scores, d, holdout);
    BuiltRowHolds(a, task, generator, scores, d, holdout);
    SignalsAreUnique(row.signals, built.signals, generator, scores, d.success, d.judgeScore, holdout);
  }

  lemma SignalsAreUnique(s: seq<Signal>, t: seq<Signal>, generator: string, scores: seq<GraderScore>,
      success: bool, judgeScore: real, holdout: bool)
    requires SignalsHold(s, generator, scores, success, judgeScore, holdout)
    requires SignalsHold(t, generator, scores, success, judgeScore, holdout)
    ensures s == t
  {
    var n := |scores|;
    forall k | 0 <= k < |s| ensures s[k] == t[k] {
      if 4 <= k < n + 4 {
        assert s[(k - 4) + 4] == GraderSignal(scores[k - 4].graderId) == t[(k - 4) + 4];
      }
    }
  }

  lemma OneDecision(scores: seq<GraderScore>, passScore: real, d: Decision, other: Decision)
    requires Favours(scores, passScore, d.success, d.judgeScore) && Favours(scores, passScore, other.success, other.judgeScore)
    ensures d == other
  {
    OneSideOnly(scores, passScore);
    CampaignVerdicts.OneNearestTenth(d.judgeScore, other.judgeScore, scores);
  }

  lemma ConcludesUnlessUnfilable(a: Docket, d: Disagreement, task: Task, model: string, scores: seq<GraderScore>)
    requires |scores| <= 3
    ensures Conclude(a, d, task, model, scores).Err? <==> CannotBeFiled(a, task, d.generatorId, scores)
  {
    MajorityIsAgreement(scores, a.passScore);
    if Majority(scores, a.passScore).Some? && |task.sessionId| > 0 && 0.0 <= a.holdoutPercent <= 100.0 {
      var decision := Majority(scores, a.passScore).value;
      RefusedIff(a, task, d.generatorId, scores, decision, (a.digest(a.seed, task.sessionId) % 100) as real < a.holdoutPercent);
    }
  }

  lemma RefusedIff(a: Docket, task: Task, generator: string, scores: seq<GraderScore>, d: Decision, holdout: bool)
    requires Favours(scores, a.passScore, d.success, d.judgeScore)
    requires holdout <==> (a.digest(a.seed, task.sessionId) % 100) as real < a.holdoutPercent
    ensures RowRefused(a, task, generator, scores) <==> !a.acceptsRow(AdjudicatedRow(a, task, generator, scores, d, holdout))
  {
    BuiltRowHolds(a, task, generator, scores, d, holdout);
    forall other: Decision, side, row |
        Favours(scores, a.passScore, other.success, other.judgeScore) && RowHolds(a, task, generator, scores, other, side, row)
      ensures other == d && row == AdjudicatedRow(a, task, generator, scores, d, side)
    {
      OneDecision(scores, a.passScore, d, other);
      OneRowHolds(a, task, generator, scores, other, side, row);
    }
  }

  /** A malformed generator id before a panel, or the panel's agreement that cannot be filed. */
  ghost predicate StopsTheRun(a: Docket, i: nat)
    requires i < |a.disagreements|
  {
    var d := a.disagreements[i];
    exists panel ::
      && Empanelled(a, i, panel)
      && (!CampaignVerdicts.PlainId(d.generatorId)
          || (Heard(a, i, panel) && CannotBeFiled(a, a.tasks[d.taskId], d.generatorId, Ballots(a, i, panel))))
  }

  /** A disagreement ends the whole run exactly when its panel meets a malformed id or an agreement that cannot be filed. */
  lemma StopsIff(a: Docket, i: nat)
    requires i < |a.disagreements|
    ensures Settle(a, i).Err? <==> StopsTheRun(a, i)
  {
    var d := a.disagreements[i];
    if Known(a, i) {
      forall text ensures ResponseFor(a, i) == Ok(text) <==> ResponseIs(a, i, text) {
        ResponseIff(a, i, text);
      }
      forall panel ensures PanelFor(a, i) == Ok(panel) <==> PanelIs(a, i, panel) {
        PanelIff(a, i, panel);
      }
      if PanelFor(a, i).Ok? {
        var panel := PanelFor(a, i).value;
        ScoresOfThree(a, i, panel);
        CampaignVerdicts.PlainIdIff(d.generatorId);
        ConcludesUnlessUnfilable(a, d, a.tasks[d.taskId], a.generatorModels[d.generatorId], Ballots(a, i, panel));
      }
    }
  }

  // ---------------------------------------------------------------------------
  // Whole runs
  // ---------------------------------------------------------------------------

  /** A run ends normally exactly when no disagreement stops it. */
  lemma RunEndsIff(a: Docket)
    ensures ResultAt(a, |a.disagreements|).Ok? <==> forall i: nat | i < |a.disagreements| :: !StopsTheRun(a, i)
  {
    StepsEndIff(a, |a.disagreements|);
    forall i: nat | i < |a.disagreements| ensures Breaks(a, i) <==> StopsTheRun(a, i) {
      SettleBreaks(a, i);
      StopsIff(a, i);
    }
  }

  /** The outcome is in the list it belongs to. */
  ghost predicate Listed(r: Adjudicated, s: Settlement) {
    match s
    case Resolved(e) => e in r.resolved
    case Residual(l) => l in r.residual
  }

  /** Every disagreement's outcome is listed. */
  lemma {:induction false} OutcomesAreListed(a: Docket, n: nat, i: nat)
    requires i < n <= |a.disagreements| && ResultAt(a, n).Ok?
    ensures Settle(a, i).Ok? && Listed(ResultAt(a, n).value, Settle(a, i).value.settlement)
  {
    ResultGrows(a, n - 1, ResultAt(a, n - 1).value, Settle(a, n - 1));
    if i < n - 1 {
      OutcomesAreListed(a, n - 1, i);
    }
  }

  /** Nothing else is. */
  lemma {:induction false} ListedIsSettled(a: Docket, n: nat, s: Settlement)
    requires n <= |a.disagreements| && ResultAt(a, n).Ok? && Listed(ResultAt(a, n).value, s)
    ensures exists i: nat :: i < n && Settled(a, i, s)
  {
    assert ResultAt(a, 0) == Ok(Adjudicated([], [], []));
    if n > 0 {
      ResultGrows(a, n - 1, ResultAt(a, n - 1).value, Settle(a, n - 1));
      if Listed(ResultAt(a, n - 1).value, s) {
        ListedIsSettled(a, n - 1, s);
      } else {
        assert Settled(a, n - 1, s);
      }
    }
  }

  /** Disagreement i has this outcome, rightly. */
  ghost predicate CalledFor(a: Docket, i: nat, s: Settlement) {
    i < |a.disagreements| && Settled(a, i, s) && OutcomeHolds(a, i, s) && (s.Resolved? <==> Decided(a, i))
  }

  lemma SettledIsCalledFor(a: Docket, i: nat, s: Settlement)
    requires Settled(a, i, s)
    ensures CalledFor(a, i, s)
  {
    SettlementIsCalledFor(a, i, s);
  }

  /** The disagreement's outcome is in the list it belongs to. */
  ghost predicate IsListed(a: Docket, r: Adjudicated, i: nat) { exists s :: CalledFor(a, i, s) && Listed(r, s) }

  /** A run that ends normally lists exactly the outcomes its disagreements call for. */
  lemma RunListsWhatIsCalledFor(a: Docket)
    requires ResultAt(a, |a.disagreements|).Ok?
    ensures var r := ResultAt(a, |a.disagreements|).value;
      && (forall i: nat | i < |a.disagreements| :: IsListed(a, r, i))
      && forall s | Listed(r, s) :: exists i: nat :: CalledFor(a, i, s)
  {
    var n := |a.disagreements|;
    var r := ResultAt(a, n).value;
    forall i: nat | i < n ensures IsListed(a, r, i) {
      OutcomesAreListed(a, n, i);
      SettledIsCalledFor(a, i, Settle(a, i).value.settlement);
    }
    forall s | Listed(r, s) ensures exists i: nat :: CalledFor(a, i, s) {
      ListedIsSettled(a, n, s);
      var i: nat :| i < n && Settled(a, i, s);
      SettledIsCalledFor(a, i, s);
    }
  }

  /** The generations kept are those of the run's disagreements. */
  lemma {:induction false} GenerationsAreListed(a: Docket, n: nat, g: Generation)
    requires n <= |a.disagreements| && ResultAt(a, n).Ok?
    ensures g in ResultAt(a, n).value.generations <==>
      exists i: nat :: i < n && Settle(a, i).Ok? && Settle(a, i).value.generation == Some(g)
  {
    assert ResultAt(a, 0) == Ok(Adjudicated([], [], []));
    if n > 0 {
      GenerationsAreListed(a, n - 1, g);
      ResultGrows(a, n - 1, ResultAt(a, n - 1).value, Settle(a, n - 1));
    }
  }
}
