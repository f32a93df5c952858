/** When an adjudication run ends normally: on given answers, and whatever the models answer. */
module AdjudicationEnds {
  import opened Wrappers
  import opened Labelling
  import opened Panel
  import opened Adjudication
  import LabelCampaign

  // ---------------------------------------------------------------------------
  // On given answers
  // ---------------------------------------------------------------------------

  /** The disagreement's task and its generator are at hand. */
  predicate Known(a: Docket, i: nat)
    requires i < |a.disagreements|
  {
    var d := a.disagreements[i];
    d.taskId in a.tasks && d.generatorId in a.generators && d.generatorId in a.generatorModels
  }

  function PanelFor(a: Docket, i: nat): Result<seq<ModelRef>, nat>
    requires i < |a.disagreements| && Known(a, i)
  {
    SelectedPanel(a.generatorModels[a.disagreements[i].generatorId], a.pool, a.fill, MIN_PANEL_SIZE)
  }

  /** The session draws no partition, or the row built from these scores is rejected. */
  predicate Unfilable(a: Docket, i: nat, scores: seq<GraderScore>, d: Decision)
    requires i < |a.disagreements| && Known(a, i)
  {
    var task := a.tasks[a.disagreements[i].taskId];
    match AssignSessionHoldout(task.sessionId, a.seed, a.holdoutPercent, a.digest)
    case None => true
    case Some(holdout) => !a.acceptsRow(AdjudicatedRow(a, task, a.disagreements[i].generatorId, scores, d, holdout))
  }

  /** A response and a panel for a malformed generator id, or a majority that cannot be filed. */
  predicate Breaks(a: Docket, i: nat) {
    && i < |a.disagreements| && Known(a, i) && ResponseFor(a, i).Ok? && PanelFor(a, i).Ok?
    && (!ValidClientId(a.disagreements[i].generatorId)
        || var scores := PanelScores(a, i, PanelFor(a, i).value);
           scores.Ok? && Majority(scores.value, a.passScore).Some?
           && Unfilable(a, i, scores.value, Majority(scores.value, a.passScore).value))
  }

  lemma SettleBreaks(a: Docket, i: nat)
    requires i < |a.disagreements|
    ensures Settle(a, i).Err? <==> Breaks(a, i)
  {
  }

  /** The run gets past the first n disagreements exactly when none of them breaks it. */
  lemma {:induction false} StepsEndIff(a: Docket, n: nat)
    requires n <= |a.disagreements|
    ensures Steps(a, n).Ok? <==> forall i | 0 <= i < n :: !Breaks(a, i)
  {
    if n > 0 {
      StepsEndIff(a, n - 1);
      SettleBreaks(a, n - 1);
    }
  }

  // ---------------------------------------------------------------------------
  // Whatever the models answer
  // ---------------------------------------------------------------------------

  /** The same run with other responses and grades. */
  function Answered(a: Docket, generate: nat -> Option<string>, grade: (nat, string) -> Option<int>): Docket {
    a.(generate := generate, grade := grade)
  }

  /** A response is stored, or a fresh one may be asked for. */
  predicate MayRespond(a: Docket, i: nat)
    requires i < |a.disagreements|
  {
    var stored := a.stored(a.disagreements[i].taskId, a.disagreements[i].generatorId);
    (stored.Some? && !IsBlank(stored.value)) || !a.requireStored
  }

  /** What a panel whose members all have clients casts. */
  function Cast(panel: seq<ModelRef>, votes: string -> Option<int>): seq<GraderScore> {
    if |panel| == 0 then []
    else
      var id := panel[|panel| - 1].id;
      match NormalizeGraderScore(votes(id))
      case None => Cast(panel[..|panel| - 1], votes)
      case Some(score) => Cast(panel[..|panel| - 1], votes) + [GraderScore(id, score)]
  }

  predicate Staffed(a: Docket, panel: seq<ModelRef>) { forall p | p in panel :: p.id in a.graders }

  /** These votes reach a majority that cannot be filed. */
  predicate Spoils(a: Docket, i: nat, panel: seq<ModelRef>, votes: string -> Option<int>)
    requires i < |a.disagreements| && Known(a, i)
  {
    var decision := Majority(Cast(panel, votes), a.passScore);
    decision.Some? && Unfilable(a, i, Cast(panel, votes), decision.value)
  }

  /** Decided before anything is asked: a response and a panel are possible, and some votes spoil the run. */
  ghost predicate MayBreak(a: Docket, i: nat) {
    && i < |a.disagreements| && Known(a, i) && MayRespond(a, i) && PanelFor(a, i).Ok?
    && (!ValidClientId(a.disagreements[i].generatorId)
        || (Staffed(a, PanelFor(a, i).value) && exists votes :: Spoils(a, i, PanelFor(a, i).value, votes)))
  }

  lemma {:induction false} ScoresAreCast(a: Docket, i: nat, panel: seq<ModelRef>, votes: string -> Option<int>)
    requires forall id :: a.grade(i, id) == votes(id)
    ensures PanelScores(a, i, panel) == Ok(Cast(panel, votes)) || PanelScores(a, i, panel).Err?
    ensures PanelScores(a, i, panel).Ok? <==> Staffed(a, panel)
  {
    if |panel| > 0 {
      ScoresAreCast(a, i, panel[..|panel| - 1], votes);
      assert panel == panel[..|panel| - 1] + [panel[|panel| - 1]];
    }
  }

  lemma BreaksMayBreak(a: Docket, i: nat, generate: nat -> Option<string>, grade: (nat, string) -> Option<int>)
    requires Breaks(Answered(a, generate, grade), i)
    ensures MayBreak(a, i)
  {
    var b := Answered(a, generate, grade);
    if ValidClientId(a.disagreements[i].generatorId) {
      var votes := (id: string) => grade(i, id);
      ScoresAreCast(b, i, PanelFor(a, i).value, votes);
      assert Spoils(a, i, PanelFor(a, i).value, votes);
    }
  }

  /** Some answers turn a possible break into a real one. */
  lemma MayBreakBreaks(a: Docket, i: nat) returns (generate: nat -> Option<string>, grade: (nat, string) -> Option<int>)
    requires MayBreak(a, i)
    ensures Breaks(Answered(a, generate, grade), i)
  {
    generate := (j: nat) => Some("done");
    assert !IsBlank("done") by {
      assert "done"[0] in "done" && !IsSpace("done"[0]);
    }
    var votes: string -> Option<int> := id => None;
    if ValidClientId(a.disagreements[i].generatorId) {
      votes :| Spoils(a, i, PanelFor(a, i).value, votes);
    }
    grade := (j: nat, id: string) => votes(id);
    ScoresAreCast(Answered(a, generate, grade), i, PanelFor(a, i).value, votes);
  }

  ghost predicate AlwaysEnds(a: Docket) {
    forall generate, grade :: Steps(Answered(a, generate, grade), |a.disagreements|).Ok?
  }

  /** The run ends normally whatever the models answer exactly when no disagreement may break it. */
  lemma AlwaysEndsIff(a: Docket)
    ensures AlwaysEnds(a) <==> forall i: nat :: !MayBreak(a, i)
  {
    if i: nat :| MayBreak(a, i) {
      var generate, grade := MayBreakBreaks(a, i);
      StepsEndIff(Answered(a, generate, grade), |a.disagreements|);
      assert !AlwaysEnds(a);
    } else {
      forall generate, grade ensures Steps(Answered(a, generate, grade), |a.disagreements|).Ok? {
        StepsEndIff(Answered(a, generate, grade), |a.disagreements|);
        if i: nat :| Breaks(Answered(a, generate, grade), i) {
          BreaksMayBreak(a, i, generate, grade);
        }
      }
    }
  }

  // ---------------------------------------------------------------------------
  // On loaded inputs
  // ---------------------------------------------------------------------------

  const LABEL_PACK_TIERS := ["zero-tier", "economical-cloud", "frontier-cloud"]

  /** What the row parser demands of the parts that vary. */
  predicate RowParses(row: LabelRow, tainted: string -> bool) {
    && |row.sampleId| > 0 && |row.features| > 0 && (forall key | key in row.features :: !tainted(key))
    && (row.tier.Some? ==> row.tier.value in LABEL_PACK_TIERS)
  }

  /** What the task loader lets through. */
  predicate TaskLoads(task: Task, tainted: string -> bool) {
    && |task.sessionId| > 0 && |task.features| > 0 && (forall key | key in task.features :: !tainted(key))
    && (task.tier.Some? ==> task.tier.value in LABEL_PACK_TIERS)
  }

  /** Tasks come from the loader, generator ids from checked specs, and rows go through the parser. */
  ghost predicate Loaded(a: Docket, tainted: string -> bool) {
    && (forall id | id in a.tasks :: TaskLoads(a.tasks[id], tainted))
    && (forall id | id in a.generators :: ValidClientId(id))
    && (forall task, generator :: |a.sampleId(task, generator)| > 0)
    && forall row :: a.acceptsRow(row) <==> RowParses(row, tainted)
  }

  /** Some answers give the disagreement a decision: it is known, can be answered, and has a panel with clients. */
  predicate MayDecide(a: Docket, i: nat) {
    i < |a.disagreements| && Known(a, i) && MayRespond(a, i) && PanelFor(a, i).Ok? && Staffed(a, PanelFor(a, i).value)
  }

  lemma {:induction false} FullHouse(panel: seq<ModelRef>, votes: string -> Option<int>)
    requires forall id :: votes(id) == Some(SCORE_MAX)
    ensures |Cast(panel, votes)| == |panel|
  {
    if |panel| > 0 {
      FullHouse(panel[..|panel| - 1], votes);
    }
  }

  lemma LoadedBreaks(a: Docket, tainted: string -> bool, i: nat)
    requires Loaded(a, tainted)
    ensures MayBreak(a, i) <==> MayDecide(a, i) && !(0.0 <= a.holdoutPercent <= 100.0)
  {
    if MayDecide(a, i) {
      var panel, votes := PanelFor(a, i).value, (id: string) => Some(SCORE_MAX);
      FullHouse(panel, votes);
      if !(0.0 <= a.holdoutPercent <= 100.0) {
        assert Spoils(a, i, panel, votes);
      }
    }
  }

  /** On loaded inputs only the percentage matters: outside [0, 100] any disagreement that may be decided can end the run. */
  lemma LoadedRunAlwaysEndsIff(a: Docket, tainted: string -> bool)
    requires Loaded(a, tainted)
    ensures AlwaysEnds(a) <==> 0.0 <= a.holdoutPercent <= 100.0 || forall i: nat :: !MayDecide(a, i)
  {
    AlwaysEndsIff(a);
    forall i: nat ensures MayBreak(a, i) <==> MayDecide(a, i) && !(0.0 <= a.holdoutPercent <= 100.0) {
      LoadedBreaks(a, tainted, i);
    }
  }

  // ---------------------------------------------------------------------------
  // A report with a percentage of 150
  // ---------------------------------------------------------------------------

  /** Agreement of a full panel is what meets the percentage. */
  lemma AgreementEndsTheRun(a: Docket, i: nat)
    requires MayDecide(a, i) && ValidClientId(a.disagreements[i].generatorId) && ResponseFor(a, i).Ok?
    requires (forall id :: a.grade(i, id) == Some(SCORE_MAX)) && !(0.0 <= a.holdoutPercent <= 100.0)
    ensures Settle(a, i) == Err(HoldoutUnassignable)
  {
    var panel, votes := PanelFor(a, i).value, (id: string) => Some(SCORE_MAX);
    ScoresAreCast(a, i, panel, votes);
    FullHouse(panel, votes);
  }

  const HOLDOUT_150 := Docket(
    [LabelCampaign.Disagreement("t", "g", [])],
    map["t" := Task("t", "s", "p", None, map["x" := 1.0])], {"g"}, map["g" := "m"],
    [ModelRef("a", "m1"), ModelRef("b", "m22"), ModelRef("c", "m333")], [], {"a", "b", "c"},
    LabelCampaign.DEFAULT_SEED, 150.0, LabelCampaign.DEFAULT_PASS_SCORE as real, false,
    (task: string, generator: string) => Some("done"), (i: nat) => None, (i: nat, id: string) => Some(SCORE_MAX),
    (seed: string, session: string) => 0, (task: string, generator: string) => "row",
    (row: LabelRow) => RowParses(row, key => false))

  lemma SelectsThree(a: ModelRef, b: ModelRef, c: ModelRef, generatorModel: string)
    requires Independent([a, b, c], [a, b, c], generatorModel)
    ensures SelectedPanel(generatorModel, [a, b, c], [], MIN_PANEL_SIZE) == Ok([a, b, c])
  {
    assert [a, b, c][0] == a && [a, b, c][1] == b && [a, b, c][2] == c;
    assert a in [a, b, c] && b in [a, b, c] && c in [a, b, c];
    assert [] + [a] == [a] && [a] + [b] == [a, b] && [a, b] + [c] == [a, b, c] && [a, b, c] + [] == [a, b, c];
    SeatedSnoc([], a, generatorModel, MIN_PANEL_SIZE);
    SeatedSnoc([a], b, generatorModel, MIN_PANEL_SIZE);
    SeatedSnoc([a, b], c, generatorModel, MIN_PANEL_SIZE);
  }

  lemma PanelOfThree()
    ensures PanelFor(HOLDOUT_150, 0) == Ok(HOLDOUT_150.pool)
  {
    assert |"m"| == 1 && |"m1"| == 2 && |"m22"| == 3 && |"m333"| == 4;
    assert "a"[0] != "b"[0] && "a"[0] != "c"[0] && "b"[0] != "c"[0];
    SelectsThree(ModelRef("a", "m1"), ModelRef("b", "m22"), ModelRef("c", "m333"), "m");
  }

  /** Loaded inputs, a response and a panel of three in agreement: the run still ends with an error, and no list. */
  lemma PercentageEndsTheRun()
    ensures Loaded(HOLDOUT_150, key => false)
    ensures ResultAt(HOLDOUT_150, 1) == Err(HoldoutUnassignable)
  {
    assert "g"[0] == 'g';
    PanelOfThree();
    assert !IsBlank("done") by {
      assert "done"[0] in "done" && !IsSpace("done"[0]);
    }
    AgreementEndsTheRun(HOLDOUT_150, 0);
    assert Steps(HOLDOUT_150, 0) == Ok([]);
  }
}
