/** From labelled and adjudicated rows to the trainer: one session never feeds both the fit and its holdout. */
module LabelFlow {
  import opened Wrappers
  import opened Sorting
  import opened Labelling
  import opened LabelCampaign
  import CampaignTheorems
  import Adjudication
  import AdjudicationTheorems
  import TrainingPool

  /** A signal as the packs print it; show prints a score. */
  function SignalText(s: Signal, show: real -> string): string {
    match s
    case LlmJudge => "llm_judge"
    case PanelAdjudication => "panel_adjudication"
    case PanelMajority => "panel_majority"
    case GeneratorSignal(id) => "generator:" + id
    case GraderSignal(id) => "grader:" + id
    case DualJudgeAgreement => "dual_judge_agreement"
    case MultiJudgeAgreement => "multi_judge_agreement"
    case JudgeScore(score) => "judge_score:" + show(score)
    case FailureScore(score) => "failure_score:" + show(score)
    case SessionHoldout => TrainingPool.SESSION_HOLDOUT_SIGNAL
    case SessionFit => TrainingPool.SESSION_FIT_SIGNAL
  }

  /** No other signal prints as a session tag, whatever the client ids, and none excludes a row. */
  lemma TagsPrintUniquely(s: Signal, show: real -> string)
    ensures SignalText(s, show) == TrainingPool.SESSION_HOLDOUT_SIGNAL <==> s == SessionHoldout
    ensures SignalText(s, show) == TrainingPool.SESSION_FIT_SIGNAL <==> s == SessionFit
    ensures SignalText(s, show) != TrainingPool.WEAK_LABEL_EXCLUDE_SIGNAL
  {
    var text := SignalText(s, show);
    var holdout, fit, weak := TrainingPool.SESSION_HOLDOUT_SIGNAL, TrainingPool.SESSION_FIT_SIGNAL, TrainingPool.WEAK_LABEL_EXCLUDE_SIGNAL;
    assert holdout[0] == 's' && fit[0] == 's' && weak[0] == 'e' && |holdout| != |fit|;
    assert s != SessionHoldout && s != SessionFit ==> text[0] != 's' && text[0] != 'e';
  }

  function Texts(signals: seq<Signal>, show: real -> string): (r: seq<string>)
    ensures |r| == |signals| && forall i | 0 <= i < |r| :: r[i] == SignalText(signals[i], show)
  {
    seq(|signals|, i requires 0 <= i < |signals| => SignalText(signals[i], show))
  }

  /** A pack row as the trainer reads it; vector turns named features into the model's inputs. */
  function PackRowOf(row: LabelRow, show: real -> string, vector: map<string, real> -> seq<real>): TrainingPool.PackRow {
    TrainingPool.PackRow(row.sampleId, vector(row.features), row.success, Some(Texts(row.signals, show)))
  }

  /** A printed tag is found exactly when its signal is there. */
  lemma TagsAreFound(signals: seq<Signal>, show: real -> string)
    ensures TrainingPool.SESSION_HOLDOUT_SIGNAL in Texts(signals, show) <==> SessionHoldout in signals
    ensures TrainingPool.SESSION_FIT_SIGNAL in Texts(signals, show) <==> SessionFit in signals
    ensures TrainingPool.WEAK_LABEL_EXCLUDE_SIGNAL !in Texts(signals, show)
  {
    var texts := Texts(signals, show);
    forall i | 0 <= i < |texts|
      ensures texts[i] == TrainingPool.SESSION_HOLDOUT_SIGNAL <==> signals[i] == SessionHoldout
      ensures texts[i] == TrainingPool.SESSION_FIT_SIGNAL <==> signals[i] == SessionFit
      ensures texts[i] != TrainingPool.WEAK_LABEL_EXCLUDE_SIGNAL
    {
      TagsPrintUniquely(signals[i], show);
    }
  }

  /** The trainer's view of a row agrees with the tags it was given, and never drops it as weak. */
  lemma TrainerReadsTags(row: LabelRow, show: real -> string, vector: map<string, real> -> seq<real>)
    ensures var p := PackRowOf(row, show, vector);
      && (TrainingPool.IsHoldoutRow(p) <==> SessionHoldout in row.signals)
      && (TrainingPool.HasSignal(p, TrainingPool.SESSION_FIT_SIGNAL) <==> SessionFit in row.signals)
      && !TrainingPool.IsWeakLabel(p)
  {
    TagsAreFound(row.signals, show);
  }

  /** The row carries exactly the tag that its session draws under this seed and percentage. */
  ghost predicate Filed(row: LabelRow, session: string, seed: string, percent: real, digest: SessionDigest) {
    exists holdout ::
      && AssignSessionHoldout(session, seed, percent, digest) == Some(holdout)
      && (SessionHoldout in row.signals <==> holdout) && (SessionFit in row.signals <==> !holdout)
  }

  /** Every row a campaign labels is filed under its task's session. */
  lemma CampaignRowsAreFiled(c: Campaign, t: nat, g: nat, e: LabeledEntry)
    requires Rejection(c).None? && CampaignTheorems.Judged(c, t, g, Agreed(e))
    ensures Filed(e.row, c.tasks[t].sessionId, c.options.Seed(), c.options.HoldoutPercent(), c.digest)
  {
    CampaignTheorems.EntryIsSound(c, t, g, e);
  }

  /** Every row the panel resolves is filed under its task's session. */
  lemma AdjudicatedRowsAreFiled(a: Adjudication.Docket, i: nat, e: Adjudication.ResolvedEntry)
    requires i < |a.disagreements|
    ensures AdjudicationTheorems.Settled(a, i, Adjudication.Resolved(e)) ==>
      && a.disagreements[i].taskId in a.tasks
      && Filed(e.row, a.tasks[a.disagreements[i].taskId].sessionId, a.seed, a.holdoutPercent, a.digest)
  {
    AdjudicationTheorems.ResolutionIsSound(a, i, e);
  }

  function PackRowsOf(rows: seq<LabelRow>, show: real -> string, vector: map<string, real> -> seq<real>): (r: seq<TrainingPool.PackRow>)
    ensures |r| == |rows| && forall i | 0 <= i < |r| :: r[i] == PackRowOf(rows[i], show, vector)
  {
    seq(|rows|, i requires 0 <= i < |rows| => PackRowOf(rows[i], show, vector))
  }

  /**
   * Rows filed under one seed and percentage, from any number of campaigns and adjudications: the trainer
   * accepts them all, places every one, and never has one session on both sides.
   */
  lemma NoSessionStraddlesTheSplit(rows: seq<LabelRow>, sessions: seq<string>, seed: string, percent: real, digest: SessionDigest,
                                   show: real -> string, vector: map<string, real> -> seq<real>)
    requires |sessions| == |rows|
    requires forall i | 0 <= i < |rows| :: Filed(rows[i], sessions[i], seed, percent, digest)
    ensures var packRows := PackRowsOf(rows, show, vector);
      && TrainingPool.AcceptedRows(packRows) == packRows
      && TrainingPool.PartitionOf(packRows).unpartitioned == []
      && forall i, j | 0 <= i < |rows| && 0 <= j < |rows|
           && packRows[i] in TrainingPool.PartitionOf(packRows).fit && packRows[j] in TrainingPool.PartitionOf(packRows).holdout ::
           sessions[i] != sessions[j]
  {
    var packRows := PackRowsOf(rows, show, vector);
    forall i | 0 <= i < |rows|
      ensures TrainingPool.IsHoldoutRow(packRows[i]) <==> SessionHoldout in rows[i].signals
      ensures TrainingPool.IsFitRow(packRows[i]) <==> SessionHoldout !in rows[i].signals
      ensures !TrainingPool.IsUnpartitioned(packRows[i]) && !TrainingPool.IsWeakLabel(packRows[i])
    {
      TrainerReadsTags(rows[i], show, vector);
      assert Filed(rows[i], sessions[i], seed, percent, digest);
    }
    FilterUniform(packRows, (r: TrainingPool.PackRow) => !TrainingPool.IsWeakLabel(r), true);
    FilterUniform(packRows, TrainingPool.IsUnpartitioned, false);
    FilterMembers(packRows, TrainingPool.IsFitRow);
    FilterMembers(packRows, TrainingPool.IsHoldoutRow);
    forall i, j | 0 <= i < |rows| && 0 <= j < |rows| && TrainingPool.IsFitRow(packRows[i]) && TrainingPool.IsHoldoutRow(packRows[j])
      ensures sessions[i] != sessions[j]
    {
      assert Filed(rows[i], sessions[i], seed, percent, digest) && Filed(rows[j], sessions[j], seed, percent, digest);
    }
  }
}
