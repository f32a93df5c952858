/** What every adjudication that ends normally conserves and keeps apart. */
module AdjudicationTheorems {
  import opened Wrappers
  import opened Labelling
  import opened Panel
  import opened Adjudication
  import opened AdjudicationEnds

  // ---------------------------------------------------------------------------
  // Conservation
  // ---------------------------------------------------------------------------

  type Case = (string, string)

  function CaseOf(s: Settlement): Case {
    match s
    case Resolved(e) => (e.taskId, e.generatorId)
    case Residual(l) => (l.taskId, l.generatorId)
  }

  function CaseAt(d: Disagreement): Case { (d.taskId, d.generatorId) }

  function Cases(disagreements: seq<Disagreement>): multiset<Case> {
    if |disagreements| == 0 then multiset{}
    else Cases(disagreements[..|disagreements| - 1]) + multiset{CaseAt(disagreements[|disagreements| - 1])}
  }

  function ResolvedCases(entries: seq<ResolvedEntry>): multiset<Case> {
    if |entries| == 0 then multiset{}
    else ResolvedCases(entries[..|entries| - 1]) + multiset{CaseOf(Resolved(entries[|entries| - 1]))}
  }

  function ResidualCases(entries: seq<ResidualEntry>): multiset<Case> {
    if |entries| == 0 then multiset{}
    else ResidualCases(entries[..|entries| - 1]) + multiset{CaseOf(Residual(entries[|entries| - 1]))}
  }

  /** The multiset of cases the two lists hold. */
  function Held(r: Adjudicated): multiset<Case> { ResolvedCases(r.resolved) + ResidualCases(r.residual) }

  lemma RecordedCases(before: Adjudicated, step: Step)
    ensures Held(Recorded(before, step)) == Held(before) + multiset{CaseOf(step.settlement)}
  {
    match step.settlement
    case Resolved(e) => assert (before.resolved + [e])[..|before.resolved|] == before.resolved;
    case Residual(l) => assert (before.residual + [l])[..|before.residual|] == before.residual;
  }

  lemma ConcludeKeepsCase(a: Docket, d: Disagreement, task: Task, model: string, scores: seq<GraderScore>)
    ensures var r := Conclude(a, d, task, model, scores); r.Ok? ==> CaseOf(r.value) == CaseAt(d)
  {
  }

  lemma HearingKeepsCase(a: Docket, i: nat, task: Task, model: string)
    requires i < |a.disagreements|
    ensures var r := Hearing(a, i, task, model); r.Ok? ==> CaseOf(r.value) == CaseAt(a.disagreements[i])
  {
    var panel := SelectedPanel(model, a.pool, a.fill, MIN_PANEL_SIZE);
    if panel.Ok? {
      var scores := PanelScores(a, i, panel.value);
      if scores.Ok? {
        ConcludeKeepsCase(a, a.disagreements[i], task, model, scores.value);
      }
    }
  }

  lemma SettleKeepsCase(a: Docket, i: nat)
    requires i < |a.disagreements| && Settle(a, i).Ok?
    ensures CaseOf(Settle(a, i).value.settlement) == CaseAt(a.disagreements[i])
  {
    var d := a.disagreements[i];
    if d.taskId in a.tasks && d.generatorId in a.generatorModels {
      HearingKeepsCase(a, i, a.tasks[d.taskId], a.generatorModels[d.generatorId]);
    }
  }

  lemma {:induction false} StepsKeepCases(a: Docket, n: nat)
    requires n <= |a.disagreements| && Steps(a, n).Ok?
    ensures forall i | 0 <= i < n :: CaseOf(Steps(a, n).value[i].settlement) == CaseAt(a.disagreements[i])
  {
    if n > 0 {
      StepsKeepCases(a, n - 1);
      SettleKeepsCase(a, n - 1);
    }
  }

  lemma {:induction false} GatheredConserves(steps: seq<Step>, disagreements: seq<Disagreement>)
    requires |steps| == |disagreements|
    requires forall i | 0 <= i < |steps| :: CaseOf(steps[i].settlement) == CaseAt(disagreements[i])
    ensures Held(Gathered(steps)) == Cases(disagreements)
  {
    if |steps| > 0 {
      var n := |steps| - 1;
      GatheredConserves(steps[..n], disagreements[..n]);
      RecordedCases(Gathered(steps[..n]), steps[n]);
    }
  }

  lemma {:induction false} GatheredCounts(steps: seq<Step>)
    ensures |Gathered(steps).resolved| + |Gathered(steps).residual| == |steps|
  {
    if |steps| > 0 {
      GatheredCounts(steps[..|steps| - 1]);
    }
  }

  /**
   * The run past n disagreements ends normally exactly when none of them breaks it, and then each of
   * them is in exactly one of the two lists and nothing else is there.
   */
  lemma AdjudicationConserves(a: Docket, n: nat)
    requires n <= |a.disagreements|
    ensures ResultAt(a, n).Ok? <==> forall i | 0 <= i < n :: !Breaks(a, i)
    ensures ResultAt(a, n).Ok? ==>
      var r := ResultAt(a, n).value;
      && ResolvedCases(r.resolved) + ResidualCases(r.residual) == Cases(a.disagreements[..n])
      && |r.resolved| + |r.residual| == n
  {
    StepsEndIff(a, n);
    if Steps(a, n).Ok? {
      StepsKeepCases(a, n);
      GatheredConserves(Steps(a, n).value, a.disagreements[..n]);
      GatheredCounts(Steps(a, n).value);
    }
  }

  /** Disagreement i was settled with this outcome. */
  ghost predicate Settled(a: Docket, i: nat, s: Settlement) {
    i < |a.disagreements| && Settle(a, i).Ok? && Settle(a, i).value.settlement == s
  }

  lemma {:induction false} ResolvedEntriesComeFrom(a: Docket, n: nat)
    requires n <= |a.disagreements| && ResultAt(a, n).Ok?
    ensures forall e | e in ResultAt(a, n).value.resolved :: exists i: nat :: Settled(a, i, Resolved(e))
  {
    if n > 0 {
      ResolvedEntriesComeFrom(a, n - 1);
      ResultGrows(a, n - 1, ResultAt(a, n - 1).value, Settle(a, n - 1));
      forall e | e in ResultAt(a, n).value.resolved ensures exists i: nat :: Settled(a, i, Resolved(e)) {
        if e !in ResultAt(a, n - 1).value.resolved {
          assert Settled(a, n - 1, Resolved(e));
        }
      }
    }
  }

  // ---------------------------------------------------------------------------
  // What a resolved entry guarantees
  // ---------------------------------------------------------------------------

  /** Distinct panel members' own valid scores, in panel order. */
  ghost predicate ScoresOf(a: Docket, i: nat, panel: seq<ModelRef>, scores: seq<GraderScore>) {
    && |scores| <= |panel|
    && (forall j, k | 0 <= j < k < |scores| :: scores[j].graderId != scores[k].graderId)
    && forall s | s in scores ::
         && SCORE_MIN <= s.score <= SCORE_MAX && a.grade(i, s.graderId) == Some(s.score)
         && exists p | p in panel :: p.id == s.graderId
  }

  lemma {:induction false} PanelScoresAreCast(a: Docket, i: nat, panel: seq<ModelRef>)
    requires PanelScores(a, i, panel).Ok?
    requires forall j, k | 0 <= j < k < |panel| :: panel[j].id != panel[k].id
    ensures ScoresOf(a, i, panel, PanelScores(a, i, panel).value)
  {
    if |panel| > 0 {
      var init, p := panel[..|panel| - 1], panel[|panel| - 1];
      PanelScoresAreCast(a, i, init);
      assert panel == init + [p];
    }
  }

  /** An independent panel of three, of which two or three answered, most of them the way the row says. */
  ghost predicate SoundResolution(a: Docket, i: nat, e: ResolvedEntry, panel: seq<ModelRef>)
    requires i < |a.disagreements|
  {
    var d := a.disagreements[i];
    && d.taskId in a.tasks && d.generatorId in a.generatorModels && e.generatorModel == a.generatorModels[d.generatorId]
    && e.taskId == d.taskId && e.generatorId == d.generatorId
    && |panel| == MIN_PANEL_SIZE && Independent(panel, a.pool + a.fill, e.generatorModel)
    && ScoresOf(a, i, panel, e.panelistScores) && |e.panelistScores| >= MIN_MAJORITY
    && StrictMajority(e.panelistScores, a.passScore, e.success) && e.row.success == e.success
    && 0.0 <= e.judgeScore <= 9.0
    && AssignSessionHoldout(a.tasks[d.taskId].sessionId, a.seed, a.holdoutPercent, a.digest) == Some(e.holdout)
    && (SessionHoldout in e.row.signals <==> e.holdout) && (SessionFit in e.row.signals <==> !e.holdout)
  }

  lemma ConclusionIsSound(a: Docket, d: Disagreement, task: Task, model: string, i: nat, panel: seq<ModelRef>, scores: seq<GraderScore>, e: ResolvedEntry)
    requires Conclude(a, d, task, model, scores) == Ok(Resolved(e)) && |panel| == MIN_PANEL_SIZE && ScoresOf(a, i, panel, scores)
    ensures e.panelistScores == scores && |scores| >= MIN_MAJORITY && StrictMajority(scores, a.passScore, e.success)
    ensures e.generatorModel == model && e.taskId == d.taskId && e.generatorId == d.generatorId && e.row.success == e.success
    ensures 0.0 <= e.judgeScore <= 9.0
    ensures AssignSessionHoldout(task.sessionId, a.seed, a.holdoutPercent, a.digest) == Some(e.holdout)
    ensures (SessionHoldout in e.row.signals <==> e.holdout) && (SessionFit in e.row.signals <==> !e.holdout)
  {
    SmallPanelDecidesByMajority(scores, a.passScore);
    MeanWithinBounds(scores, SCORE_MIN, SCORE_MAX);
  }

  lemma ResolutionIsSound(a: Docket, i: nat, e: ResolvedEntry)
    requires i < |a.disagreements|
    ensures Settled(a, i, Resolved(e)) ==> exists panel :: SoundResolution(a, i, e, panel)
  {
    if Settled(a, i, Resolved(e)) {
      var d := a.disagreements[i];
      var task, model := a.tasks[d.taskId], a.generatorModels[d.generatorId];
      var panel := SelectedPanel(model, a.pool, a.fill, MIN_PANEL_SIZE).value;
      PanelIsIndependent(model, a.pool, a.fill, MIN_PANEL_SIZE);
      PanelScoresAreCast(a, i, panel);
      var scores := PanelScores(a, i, panel).value;
      ConclusionIsSound(a, d, task, model, i, panel, scores, e);
      assert SoundResolution(a, i, e, panel);
    }
  }

  /** Every resolved entry of a run that ends normally is sound. */
  lemma ResolvedEntriesAreSound(a: Docket)
    requires ResultAt(a, |a.disagreements|).Ok?
    ensures forall e | e in ResultAt(a, |a.disagreements|).value.resolved ::
      exists i: nat, panel :: i < |a.disagreements| && SoundResolution(a, i, e, panel)
  {
    ResolvedEntriesComeFrom(a, |a.disagreements|);
    forall e | e in ResultAt(a, |a.disagreements|).value.resolved
      ensures exists i: nat, panel :: i < |a.disagreements| && SoundResolution(a, i, e, panel)
    {
      var i: nat :| Settled(a, i, Resolved(e));
      ResolutionIsSound(a, i, e);
    }
  }

  /** Every row the run can build is accepted. */
  ghost predicate AcceptsBuiltRows(a: Docket) {
    forall d, scores, decision, holdout | d in a.disagreements && d.taskId in a.tasks ::
      a.acceptsRow(AdjudicatedRow(a, a.tasks[d.taskId], d.generatorId, scores, decision, holdout))
  }

  /** The run aborts only on a malformed generator id, an unassignable session or a rejected row. */
  lemma AbortsAreExplained(a: Docket)
    requires 0.0 <= a.holdoutPercent <= 100.0
    requires forall d | d in a.disagreements :: ValidClientId(d.generatorId)
    requires forall id | id in a.tasks :: |a.tasks[id].sessionId| > 0
    requires AcceptsBuiltRows(a)
    ensures AlwaysEnds(a) && ResultAt(a, |a.disagreements|).Ok?
  {
    forall i: nat ensures !MayBreak(a, i) {
      if i < |a.disagreements| {
        assert a.disagreements[i] in a.disagreements;
      }
    }
    AlwaysEndsIff(a);
    assert Answered(a, a.generate, a.grade) == a;
  }
}
